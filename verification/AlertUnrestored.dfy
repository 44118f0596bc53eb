/** A start whose Restore fails: the program goes on with no tracks. When that is safe, and what else happens. */
module AlertUnrestored {
  import opened Common
  import opened AlertKeys
  import opened AlertModel
  import opened AlertSafety
  import opened AlertReplay

  /** An event as before, or a crash after which the new process cannot read the firing rows. */
  datatype Step = Usual(e: Event) | Unrestored(e: Event)

  /** What a crash leaves to the next process. */
  function Left(s: Sys, e: Event): Sys {
    if e.CrashInEvaluate? then Interrupted(s, e.env, e.script, e.half) else s
  }

  /** Restore returned an error: it is logged, and the evaluator runs on an empty map of tracks. */
  function Forgotten(s: Sys): Sys { s.(tracks := map[], queue := []) }

  ghost function AfterStep(s: Sys, step: Step): Sys {
    match step
    case Usual(e) => After(s, e)
    case Unrestored(e) => Forgotten(Left(s, e))
  }

  ghost predicate PossibleStep(s: Sys, step: Step) {
    Possible(s, step.e) && (step.Unrestored? ==> step.e.CrashIdle? || step.e.CrashInEvaluate?)
  }

  ghost function Lived(steps: seq<Step>): Sys {
    if steps == [] then Initial else AfterStep(Lived(steps[..|steps| - 1]), steps[|steps| - 1])
  }

  ghost predicate FeasibleSteps(steps: seq<Step>) {
    forall i | 0 <= i < |steps| :: PossibleStep(Lived(steps[..i]), steps[i])
  }

  /** Without tracks, memory and table agree exactly when nothing fires. */
  lemma ForgottenIsSafeExactlyWhen(s: Sys)
    requires Durable(s)
    ensures Inv(Forgotten(s)) <==> FiringKeysOf(s.rows) == {}
  {
    if id :| id in s.rows && s.rows[id].state.Firing? { assert RowKey(s.rows[id]) in FiringKeysOf(s.rows); }
  }

  lemma LeftIsDurable(s: Sys, e: Event)
    requires Inv(s) && Possible(s, e)
    ensures Durable(Left(s, e))
  {
    if e.CrashInEvaluate? {
      var t := Process(s, e.env, e.script);
      ProcessKeepsInv(s, e.env, e.script);
      InvOneFiring(t);
      if e.half.Some? { HalfIsDurable(t, e.env, e.half.value.0, e.half.value.1); }
    } else {
      InvOneFiring(s);
    }
  }

  /** The table of step `i`, if its process forgot it, shows nothing firing. */
  ghost predicate ForgetsNothing(steps: seq<Step>, i: nat)
    requires i < |steps|
  {
    steps[i].Unrestored? ==> FiringKeysOf(Lived(steps[..i + 1]).rows) == {}
  }

  lemma StepIsSafeExactlyWhen(steps: seq<Step>, i: nat)
    requires i < |steps| && FeasibleSteps(steps) && Inv(Lived(steps[..i]))
    ensures Inv(Lived(steps[..i + 1])) <==> ForgetsNothing(steps, i)
  {
    var s := Lived(steps[..i]);
    assert steps[..i + 1][..i] == steps[..i];
    match steps[i]
    case Usual(e) => AfterKeepsInv(s, e);
    case Unrestored(e) =>
      LeftIsDurable(s, e);
      ForgottenIsSafeExactlyWhen(Left(s, e));
  }

  /** Over every run, failed restores included, all states are safe exactly when every failed restore found nothing
      firing. */
  lemma {:induction false} SafeExactlyWhen(steps: seq<Step>)
    requires FeasibleSteps(steps)
    ensures (forall i | 0 <= i <= |steps| :: Inv(Lived(steps[..i])))
            <==> forall i | 0 <= i < |steps| :: ForgetsNothing(steps, i)
  {
    hide Inv, ForgetsNothing, FeasibleSteps, AfterStep;
    if forall i | 0 <= i <= |steps| :: Inv(Lived(steps[..i])) {
      forall i | 0 <= i < |steps| ensures ForgetsNothing(steps, i) { StepIsSafeExactlyWhen(steps, i); }
    }
    if forall i | 0 <= i < |steps| :: ForgetsNothing(steps, i) {
      forall i | 0 <= i <= |steps| ensures Inv(Lived(steps[..i])) { SafeUpTo(steps, i); }
    }
  }

  lemma {:induction false} SafeUpTo(steps: seq<Step>, i: nat)
    requires i <= |steps| && FeasibleSteps(steps) && forall j | 0 <= j < |steps| :: ForgetsNothing(steps, j)
    ensures Inv(Lived(steps[..i]))
  {
    if i > 0 {
      SafeUpTo(steps, i - 1);
      StepIsSafeExactlyWhen(steps, i - 1);
    }
  }

  /** A key whose firing row has no track gets a second firing row. */
  lemma FiresAgain(s: Sys, env: Env, k: Key)
    requires ValidRows(s) && |s.queue| <= QUEUE_CAPACITY && ValidEnv(env)
    requires k in FiringKeysOf(s.rows) && k !in s.tracks
    requires k in env.active && env.active[k].holdFor <= 0 && k in env.ok
    ensures !OneFiring(Visit(s, env, k).rows)
  {
    var cond, id := env.active[k], FiringRowOf(s.rows, k);
    var tr := FreshTrack.(targetName := cond.targetName, severity := cond.severity, pendingSince := Some(env.now));
    var s' := s.(tracks := s.tracks[k := tr]);
    assert Visit(s, env, k) == Fire(s', env, k, cond, tr);
    FireOpens(s', env, k, cond, tr);
    var rows := Visit(s, env, k).rows;
    assert id in rows && s.nextID in rows && id != s.nextID;
  }

  /** A new installation opens one alert, crashes, cannot restore, and evaluates the same snapshot again: the rule
      and target have two firing rows. */
  lemma {:induction false} FailedRestoreDoubles(cond: Condition, now: Time, later: Time, debounce: int, notifier: bool)
    requires cond.holdFor <= 0
    ensures var e := FirstEvaluation(cond, now, debounce, notifier);
      var again := FirstEvaluation(cond, later, debounce, notifier);
      var steps := [Usual(e), Unrestored(CrashIdle), Usual(again)];
      FeasibleSteps(steps) && !OneFiring(Lived(steps).rows)
  {
    var e, again := FirstEvaluation(cond, now, debounce, notifier), FirstEvaluation(cond, later, debounce, notifier);
    var first := Run([e]);
    FirstEvaluationFires(cond, now, debounce, notifier);
    assert RowKey(first.rows[1]) == KeyOf(cond.rule, cond.target);
    hide FirstEvaluation, Run, After, Possible, Feasible, Lived, FeasibleSteps, Inv, OneFiring, RowKey, KeyOf;
    Safety([e]);
    StartsBefore(e);
    ThreeSteps(Usual(e), Unrestored(CrashIdle), Usual(again));
    EvaluatedAgain(first, cond, later, debounce, notifier);
    AnyoneMayCrash(first);
  }

  lemma StartsBefore(e: Event)
    requires Feasible([e])
    ensures Run([e]) == After(Initial, e) && Possible(Initial, e)
  {
    hide After, Possible;
    assert [e][..0] == [];
  }

  lemma ThreeSteps(a: Step, b: Step, c: Step)
    ensures var s1 := AfterStep(Initial, a); var s2 := AfterStep(s1, b);
      && Lived([a, b, c]) == AfterStep(s2, c)
      && (FeasibleSteps([a, b, c]) <==> PossibleStep(Initial, a) && PossibleStep(s1, b) && PossibleStep(s2, c))
  {
    hide AfterStep, PossibleStep;
    var steps := [a, b, c];
    LivedOne(steps, 0);
    LivedOne(steps, 1);
    LivedOne(steps, 2);
    assert steps[..3] == steps && steps[..0] == [];
  }

  lemma LivedOne(steps: seq<Step>, i: nat)
    requires i < |steps|
    ensures Lived(steps[..i + 1]) == AfterStep(Lived(steps[..i]), steps[i])
  {
    hide AfterStep;
    assert steps[..i + 1][..i] == steps[..i];
  }

  lemma EvaluatedAgain(first: Sys, cond: Condition, later: Time, debounce: int, notifier: bool)
    requires Inv(first) && cond.holdFor <= 0 && 1 in first.rows && first.rows[1].state.Firing?
    requires RowKey(first.rows[1]) == KeyOf(cond.rule, cond.target)
    ensures var s, again := Forgotten(first), FirstEvaluation(cond, later, debounce, notifier);
      Possible(s, again) && !OneFiring(After(s, again).rows)
  {
    var s, k := Forgotten(first), KeyOf(cond.rule, cond.target);
    var env := FirstEvaluation(cond, later, debounce, notifier).env;
    hide Visit, OneFiring;
    OneLook(s, env, k);
    FiresAgain(s, env, k);
  }
}
