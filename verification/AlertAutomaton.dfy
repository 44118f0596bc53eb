/** The timed automaton one key goes through, and the proof that the engine, seen at any one key,
    is this automaton, whatever order the map loops take. */
module AlertAutomaton {
  import opened Common
  import opened AlertKeys
  import opened AlertModel
  import opened AlertSafety

  /** Pending and Clearing carry the evaluation time they began at. */
  datatype Phase = Idle | Pending(since: Time) | Alerting | Clearing(since: Time)

  predicate IsFiring(p: Phase) { p.Alerting? || p.Clearing? }

  /** What one evaluation shows a key: its condition's hold time if the condition is present, and
      whether a store call made for it succeeds. */
  datatype Sight = Sight(now: Time, debounce: int, hold: Option<int>, ok: bool)

  /** There is no lastTransition here: the automaton has no second guard on firing. */
  function Step(p: Phase, x: Sight): Phase {
    match x.hold
    case Some(hold) =>
      if IsFiring(p) then Alerting else
        var since := if p.Pending? then p.since else x.now;
        if x.now - since >= hold && x.ok then Alerting else Pending(since)
    case None =>
      if !IsFiring(p) then Idle else
        var since := if p.Clearing? then p.since else x.now;
        if x.now - since >= x.debounce && x.ok then Idle else Clearing(since)
  }

  /** A crash forgets all but the table; an interrupted evaluation may have looked at the key first. */
  datatype KeyEvent = Eval(x: Sight) | Crash(last: Option<Sight>) | Nothing

  /** The phase an interrupted evaluation has brought a key to, as far as the table shows. */
  function LastStep(p: Phase, last: Option<Sight>): Phase {
    if last.Some? then Step(p, last.value) else p
  }

  function KeyStep(p: Phase, e: KeyEvent): Phase {
    match e
    case Eval(x) => Step(p, x)
    case Crash(last) => if IsFiring(LastStep(p, last)) then Alerting else Idle
    case Nothing => p
  }

  function KeyRun(trace: seq<KeyEvent>): Phase {
    if trace == [] then Idle else KeyStep(KeyRun(trace[..|trace| - 1]), trace[|trace| - 1])
  }

  // What the engine shows of one key.

  function PhaseOf(s: Sys, k: Key): Phase {
    if k !in s.tracks then Idle else
      var tr := s.tracks[k];
      if tr.alertID == 0 then (if tr.pendingSince.Some? then Pending(tr.pendingSince.value) else Idle)
      else if tr.clearSince.Some? then Clearing(tr.clearSince.value) else Alerting
  }

  function SightOf(env: Env, k: Key): Sight {
    Sight(env.now, env.debounce, if k in env.active then Some(env.active[k].holdFor) else None, k in env.ok)
  }

  function KeyEventOf(e: Event, k: Key): KeyEvent {
    match e
    case Evaluate(env, _) => Eval(SightOf(env, k))
    case CrashInEvaluate(env, script, half) =>
      Crash(if k in Looked(script) || (half.Some? && half.value.0 == k) then Some(SightOf(env, k)) else None)
    case CrashIdle => Crash(None)
    case Between(_) => Nothing
  }

  function Trace(events: seq<Event>, k: Key): seq<KeyEvent> {
    seq(|events|, i requires 0 <= i < |events| => KeyEventOf(events[i], k))
  }

  // Refinement.

  lemma VisitRefinesStep(s: Sys, env: Env, k: Key)
    requires Inv(s) && ValidEnv(env)
    ensures PhaseOf(Visit(s, env, k), k) == Step(PhaseOf(s, k), SightOf(env, k))
  {
    if k in s.tracks { assert ValidTrack(s.tracks[k]); }
  }

  lemma VisitLeavesOthers(s: Sys, env: Env, k: Key, k': Key)
    requires k != k'
    ensures PhaseOf(Visit(s, env, k'), k) == PhaseOf(s, k)
  {}

  lemma LookedFront(script: seq<Act>)
    requires script != [] && NoDup(Looked(script))
    ensures var front, last := Looked(script[..|script| - 1]), script[|script| - 1];
            && NoDup(front)
            && Looked(script) == (if last.Look? then front + [last.k] else front)
            && (last.Look? ==> last.k !in front)
  {
    var front, last := Looked(script[..|script| - 1]), script[|script| - 1];
    assert forall i | 0 <= i < |front| :: Looked(script)[i] == front[i];
    if last.Look? { assert Looked(script)[|front|] == last.k; }
  }

  lemma ActRefinesStep(s: Sys, env: Env, a: Act, k: Key)
    requires Inv(s) && ValidEnv(env)
    ensures PhaseOf(AfterAct(s, env, a), k)
         == if a == Look(k) then Step(PhaseOf(s, k), SightOf(env, k)) else PhaseOf(s, k)
  {
    match a
    case Side(_) =>
    case Look(k') => if k' == k { VisitRefinesStep(s, env, k); } else { VisitLeavesOthers(s, env, k, k'); }
  }

  /** A script that visits no key twice moves each visited key one step and no other key. */
  lemma {:induction false} ProcessRefinesStep(s: Sys, env: Env, script: seq<Act>, k: Key)
    requires Inv(s) && ValidEnv(env) && NoDup(Looked(script))
    ensures PhaseOf(Process(s, env, script), k)
         == if k in Looked(script) then Step(PhaseOf(s, k), SightOf(env, k)) else PhaseOf(s, k)
  {
    if script != [] {
      var front, last := script[..|script| - 1], script[|script| - 1];
      LookedFront(script);
      ProcessRefinesStep(s, env, front, k);
      ProcessKeepsInv(s, env, front);
      ActRefinesStep(Process(s, env, front), env, last, k);
    }
  }

  /** The two map loops of Evaluate, in any order, are one automaton step of every key, tracked or not. */
  lemma EvaluateRefinesStep(s: Sys, env: Env, script: seq<Act>, k: Key)
    requires Inv(s) && Possible(s, Evaluate(env, script))
    ensures PhaseOf(Process(s, env, script), k) == Step(PhaseOf(s, k), SightOf(env, k))
  {
    ProcessRefinesStep(s, env, script, k);
  }

  ghost predicate HasFiringRow(rows: map<int, AlertRow>, k: Key) {
    exists id :: id in rows && rows[id].state.Firing? && RowKey(rows[id]) == k
  }

  lemma FiringRowIsFiringPhase(s: Sys, k: Key)
    requires Inv(s)
    ensures HasFiringRow(s.rows, k) <==> IsFiring(PhaseOf(s, k))
  {
    if k in s.tracks { assert ValidTrack(s.tracks[k]); }
  }

  lemma RestartedPhase(s: Sys, k: Key)
    requires ValidRows(s)
    ensures PhaseOf(Restart(s), k) == if HasFiringRow(s.rows, k) then Alerting else Idle
  {
    if k in FiringKeysOf(s.rows) {
      assert RestoredTracks(s.rows)[k] == RestoredTrack(s.rows[FiringRowOf(s.rows, k)]);
    }
  }

  lemma HalfShowsTheWholeVisit(s: Sys, env: Env, h: Key, cut: Cut, k: Key)
    requires Inv(s) && ValidEnv(env)
    ensures HasFiringRow(Half(s, env, h, cut).rows, k)
       <==> IsFiring(if h == k then Step(PhaseOf(s, k), SightOf(env, k)) else PhaseOf(s, k))
  {
    VisitKeepsInv(s, env, h);
    FiringRowIsFiringPhase(Visit(s, env, h), k);
    assert Half(s, env, h, cut).rows == Visit(s, env, h).rows;
    if h == k { VisitRefinesStep(s, env, k); } else { VisitLeavesOthers(s, env, k, h); }
  }

  lemma InterruptedRows(s: Sys, env: Env, script: seq<Act>, half: Option<(Key, Cut)>, k: Key)
    requires Inv(s) && Possible(s, CrashInEvaluate(env, script, half))
    ensures var m := Interrupted(s, env, script, half);
      ValidRows(m)
      && (HasFiringRow(m.rows, k)
          <==> IsFiring(LastStep(PhaseOf(s, k), KeyEventOf(CrashInEvaluate(env, script, half), k).last)))
  {
    var s' := Process(s, env, script);
    ProcessKeepsInv(s, env, script);
    ProcessRefinesStep(s, env, script, k);
    if half.Some? {
      HalfIsDurable(s', env, half.value.0, half.value.1);
      HalfShowsTheWholeVisit(s', env, half.value.0, half.value.1, k);
    } else {
      FiringRowIsFiringPhase(s', k);
    }
  }

  /** A restart keeps of each key whether the table shows it firing. */
  lemma RestartShowsRows(m: Sys, p: Phase, k: Key)
    requires ValidRows(m) && (HasFiringRow(m.rows, k) <==> IsFiring(p))
    ensures PhaseOf(Restart(m), k) == if IsFiring(p) then Alerting else Idle
  {
    RestartedPhase(m, k);
  }

  lemma CrashRefinesStep(s: Sys, env: Env, script: seq<Act>, half: Option<(Key, Cut)>, k: Key)
    requires Inv(s) && Possible(s, CrashInEvaluate(env, script, half))
    ensures PhaseOf(After(s, CrashInEvaluate(env, script, half)), k)
         == KeyStep(PhaseOf(s, k), KeyEventOf(CrashInEvaluate(env, script, half), k))
  {
    var last := KeyEventOf(CrashInEvaluate(env, script, half), k).last;
    InterruptedRows(s, env, script, half, k);
    RestartShowsRows(Interrupted(s, env, script, half), LastStep(PhaseOf(s, k), last), k);
  }

  lemma IdleRows(s: Sys, k: Key)
    requires Inv(s)
    ensures ValidRows(s) && (HasFiringRow(s.rows, k) <==> IsFiring(PhaseOf(s, k)))
  {
    FiringRowIsFiringPhase(s, k);
  }

  lemma AfterRefinesKeyStep(s: Sys, e: Event, k: Key)
    requires Inv(s) && Possible(s, e)
    ensures PhaseOf(After(s, e), k) == KeyStep(PhaseOf(s, k), KeyEventOf(e, k))
  {
    hide Process, Restart, Inv;
    match e
    case Evaluate(env, script) => EvaluateRefinesStep(s, env, script, k);
    case CrashInEvaluate(env, script, half) => CrashRefinesStep(s, env, script, half, k);
    case CrashIdle =>
      IdleRows(s, k);
      RestartShowsRows(s, PhaseOf(s, k), k);
    case Between(_) =>
  }

  /** One key of the whole system runs the automaton on its own trace. */
  lemma {:induction false} RunRefinesKeyRun(events: seq<Event>, k: Key)
    requires Feasible(events)
    ensures PhaseOf(Run(events), k) == KeyRun(Trace(events, k))
  {
    if events != [] {
      var n := |events| - 1;
      FeasiblePrefix(events, n);
      RunRefinesKeyRun(events[..n], k);
      Safety(events[..n]);
      AfterRefinesKeyStep(Run(events[..n]), events[n], k);
      assert Trace(events, k)[..n] == Trace(events[..n], k);
    }
  }

  lemma FeasiblePrefix(events: seq<Event>, n: nat)
    requires Feasible(events) && n <= |events|
    ensures Feasible(events[..n])
  {
    assert forall i | 0 <= i < n :: events[..n][..i] == events[..i] && events[..n][i] == events[i];
  }

  /** In every reachable state a track has a lastTransition exactly when it holds an alert, so the guard
      on lastTransition, reached only without an alert, holds nothing back. */
  lemma {:induction false} LastTransitionMarksAlerts(events: seq<Event>, k: Key)
    requires Feasible(events)
    ensures var s := Run(events);
      k in s.tracks ==> (s.tracks[k].alertID == 0 <==> s.tracks[k].lastTransition.None?)
  {
    Safety(events);
    if k in Run(events).tracks { assert ValidTrack(Run(events).tracks[k]); }
  }
}
