/** What alert rows and messages say: over any run, the words of the conditions that were active. */
module AlertContents {
  import opened Common
  import opened AlertKeys
  import opened AlertModel
  import opened AlertSafety
  import opened AlertDelivery

  /** The inputs of an event's evaluation, complete or cut short. */
  function EnvOf(e: Event): Option<Env> {
    match e
    case Evaluate(env, _) => Some(env)
    case CrashInEvaluate(env, _, _) => Some(env)
    case _ => None
  }

  // Rows.

  /** The same alert, told in the same words. */
  predicate SameWords(a: AlertRow, b: AlertRow) {
    && a.id == b.id && a.rule == b.rule && a.target == b.target && a.targetName == b.targetName
    && a.severity == b.severity && a.message == b.message && a.firedAt == b.firedAt
  }

  /** The evaluation had a condition of the row's rule and target active, which is what the row says, at the second it
      says. */
  predicate Opened(env: Env, row: AlertRow) {
    var k := row.rule + "|" + row.target;
    && k in env.active
    && row.rule == env.active[k].rule && row.target == env.active[k].target
    && row.targetName == env.active[k].targetName && row.severity == env.active[k].severity
    && row.message == env.active[k].message
    && row.firedAt == env.now / SECOND
  }

  /** The evaluation had no such condition, at the second the row says. */
  predicate Ended(env: Env, row: AlertRow) {
    row.rule + "|" + row.target !in env.active && row.resolvedAt == env.now / SECOND
  }

  ghost predicate OpenedIn(events: seq<Event>, row: AlertRow) {
    exists i :: 0 <= i < |events| && EnvOf(events[i]).Some? && Opened(EnvOf(events[i]).value, row)
  }

  ghost predicate EndedIn(events: seq<Event>, row: AlertRow) {
    exists i :: 0 <= i < |events| && EnvOf(events[i]).Some? && Ended(EnvOf(events[i]).value, row)
  }

  /** The row tells of evaluations of the run. */
  ghost predicate RowTells(events: seq<Event>, row: AlertRow) {
    OpenedIn(events, row) && if row.state.Resolved? then EndedIn(events, row) else row.resolvedAt == 0
  }

  ghost predicate RowsTell(events: seq<Event>, rows: map<int, AlertRow>) {
    forall id | id in rows :: RowTells(events, rows[id])
  }

  lemma RowTellsLater(events: seq<Event>, e: Event, row: AlertRow)
    requires RowTells(events, row)
    ensures RowTells(events + [e], row)
  {
    var more := events + [e];
    var i :| 0 <= i < |events| && EnvOf(events[i]).Some? && Opened(EnvOf(events[i]).value, row);
    assert more[i] == events[i];
    if row.state.Resolved? {
      var j :| 0 <= j < |events| && EnvOf(events[j]).Some? && Ended(EnvOf(events[j]).value, row);
      assert more[j] == events[j];
    }
  }

  /** Side events leave a row's words and its state alone. */
  ghost predicate KeepsWords(a: map<int, AlertRow>, b: map<int, AlertRow>) {
    forall id | id in b ::
      id in a && SameWords(a[id], b[id]) && a[id].state == b[id].state && a[id].resolvedAt == b[id].resolvedAt
  }

  lemma SideKeepsWords(s: Sys, e: SideEvent)
    ensures KeepsWords(s.rows, AfterSide(s, e).rows)
  {}

  lemma {:induction false} SidesKeepWords(s: Sys, es: seq<SideEvent>)
    ensures KeepsWords(s.rows, AfterSides(s, es).rows)
  {
    if es != [] {
      SidesKeepWords(s, es[..|es| - 1]);
      SideKeepsWords(AfterSides(s, es[..|es| - 1]), es[|es| - 1]);
    }
  }

  lemma KeptWordsTell(events: seq<Event>, a: map<int, AlertRow>, b: map<int, AlertRow>)
    requires RowsTell(events, a) && KeepsWords(a, b)
    ensures RowsTell(events, b)
  {
    forall id | id in b ensures RowTells(events, b[id]) { SameRowTells(events, a[id], b[id]); }
  }

  lemma SameRowTells(events: seq<Event>, a: AlertRow, b: AlertRow)
    requires RowTells(events, a) && SameWords(a, b) && a.state == b.state && a.resolvedAt == b.resolvedAt
    ensures RowTells(events, b)
  {
    var i :| 0 <= i < |events| && EnvOf(events[i]).Some? && Opened(EnvOf(events[i]).value, a);
    assert Opened(EnvOf(events[i]).value, b);
    if a.state.Resolved? {
      var j :| 0 <= j < |events| && EnvOf(events[j]).Some? && Ended(EnvOf(events[j]).value, a);
      assert Ended(EnvOf(events[j]).value, b);
    }
  }

  /** What an alert is called: the name, severity and message of a condition, a track or a row. */
  datatype Words = Words(targetName: string, severity: string, message: string)

  function WordsOf(tr: TrackValue): Words { Words(tr.targetName, tr.severity, tr.message) }

  /** The message, and at first the row, of an alert that opens: the condition's words, the second, and nothing else. */
  predicate SaysFiring(env: Env, c: Condition, id: int, m: AlertRow) {
    && m.id == id && m.rule == c.rule && m.target == c.target && m.targetName == c.targetName
    && m.severity == c.severity && m.message == c.message
    && m.state == Firing && m.firedAt == env.now / SECOND
    && m.resolvedAt == 0 && m.notifiedAt == 0 && m.ackedAt == 0
  }

  /** The message of an alert that is resolved: the key's rule, some words, the second, and nothing else. */
  predicate SaysResolved(env: Env, k: Key, id: int, words: Words, m: AlertRow) {
    && m.id == id && m.rule == RuleOf(k) && m.target == "" && m.targetName == words.targetName
    && m.severity == words.severity && m.message == words.message
    && m.state == Resolved && m.resolvedAt == env.now / SECOND
    && m.firedAt == 0 && m.notifiedAt == 0 && m.ackedAt == 0
  }

  /** What is stored of it: the row, if it is firing, is resolved at the second. */
  predicate Stored(env: Env, was: map<int, AlertRow>, id: int, rows: map<int, AlertRow>) {
    rows == if id in was && was[id].state.Firing?
            then was[id := was[id].(state := Resolved, resolvedAt := env.now / SECOND)] else was
  }

  /** What a visit that turns its row stores, and what it publishes, before others get at the table. */
  lemma TurnStores(s: Sys, env: Env, k: Key) returns (stored: Sys, m: AlertRow)
    requires Turns(s, env, k)
    ensures Visit(s, env, k).rows == AfterSides(stored, Amid(env, k)).rows && Visit(s, env, k).log == s.log + [m]
    ensures k in env.active ==>
      SaysFiring(env, env.active[k], s.nextID, m) && stored.rows == s.rows[s.nextID := m]
    ensures k !in env.active ==> (
      k in s.tracks && SaysResolved(env, k, s.tracks[k].alertID, WordsOf(s.tracks[k]), m)
      && Stored(env, s.rows, s.tracks[k].alertID, stored.rows))
  {
    hide AfterSides, Enqueued, Amid;
    if k in env.active {
      var cond := env.active[k];
      var tr := (if k in s.tracks then s.tracks[k] else FreshTrack).(
        clearSince := None, targetName := cond.targetName, severity := cond.severity);
      var tr' := tr.(pendingSince := if tr.pendingSince.None? then Some(env.now) else tr.pendingSince);
      var s' := s.(tracks := s.tracks[k := tr']);
      assert Visit(s, env, k) == Fire(s', env, k, cond, tr');
      m := NewRow(s'.nextID, cond, Unix(env.now));
      stored := s'.(rows := s'.rows[s'.nextID := m], nextID := s'.nextID + 1);
    } else {
      var tr := s.tracks[k].(pendingSince := None);
      var tr' := tr.(clearSince := if tr.clearSince.None? then Some(env.now) else tr.clearSince);
      var s' := s.(tracks := s.tracks[k := tr']);
      assert Visit(s, env, k) == Resolve(s', env, k, tr');
      m := ResolvedMessage(k, tr', Unix(env.now));
      stored := s'.(rows := ResolveRow(s'.rows, tr'.alertID, Unix(env.now)));
    }
  }

  lemma NoTurnKeeps(s: Sys, env: Env, k: Key)
    requires Inv(s) && ValidEnv(env) && !Turns(s, env, k)
    ensures Visit(s, env, k).rows == s.rows && Visit(s, env, k).log == s.log
  {
    VisitShape(s, env, k);
  }

  /** A visit within the last event of the run leaves rows that tell of the run. */
  lemma {:induction false} VisitRowsTell(events: seq<Event>, s: Sys, env: Env, k: Key)
    requires Inv(s) && ValidEnv(env) && RowsTell(events, s.rows)
    requires events != [] && EnvOf(events[|events| - 1]) == Some(env)
    ensures RowsTell(events, Visit(s, env, k).rows)
  {
    hide Visit, RowTells, KeepsWords, AfterSides;
    if Turns(s, env, k) {
      var stored, m := TurnStores(s, env, k);
      StoredTells(events, s, env, k, stored.rows, m);
      SidesKeepWords(stored, Amid(env, k));
      KeptWordsTell(events, stored.rows, Visit(s, env, k).rows);
    } else {
      NoTurnKeeps(s, env, k);
    }
  }

  lemma StoredTells(events: seq<Event>, s: Sys, env: Env, k: Key, rows: map<int, AlertRow>, m: AlertRow)
    requires Inv(s) && ValidEnv(env) && RowsTell(events, s.rows)
    requires events != [] && EnvOf(events[|events| - 1]) == Some(env)
    requires k in env.active ==> SaysFiring(env, env.active[k], s.nextID, m) && rows == s.rows[s.nextID := m]
    requires k !in env.active ==> k in s.tracks && Stored(env, s.rows, s.tracks[k].alertID, rows)
    ensures RowsTell(events, rows)
  {
    var last := |events| - 1;
    if k in env.active {
      assert m.rule + "|" + m.target == k;
      assert Opened(EnvOf(events[last]).value, m);
    } else {
      var id := s.tracks[k].alertID;
      if id in s.rows && s.rows[id].state.Firing? {
        assert RowKey(s.rows[id]) == k by { assert s.tracks[RowKey(s.rows[id])].alertID == id; }
        EndsTold(events, s.rows[id], env);
      }
    }
  }

  lemma EndsTold(events: seq<Event>, row: AlertRow, env: Env)
    requires RowTells(events, row) && events != [] && EnvOf(events[|events| - 1]) == Some(env)
    requires KeyOf(row.rule, row.target) !in env.active
    ensures RowTells(events, row.(state := Resolved, resolvedAt := env.now / SECOND))
  {
    var done := row.(state := Resolved, resolvedAt := env.now / SECOND);
    var i :| 0 <= i < |events| && EnvOf(events[i]).Some? && Opened(EnvOf(events[i]).value, row);
    assert Opened(EnvOf(events[i]).value, done);
    assert Ended(EnvOf(events[|events| - 1]).value, done);
  }

  lemma {:induction false} ScriptRowsTell(events: seq<Event>, s: Sys, env: Env, script: seq<Act>)
    requires Inv(s) && ValidEnv(env) && RowsTell(events, s.rows)
    requires events != [] && EnvOf(events[|events| - 1]) == Some(env)
    ensures RowsTell(events, Process(s, env, script).rows)
  {
    if script != [] {
      hide Inv, RowsTell, Visit, AfterSide, KeepsWords;
      var front, last := script[..|script| - 1], script[|script| - 1];
      var t := Process(s, env, front);
      ScriptRowsTell(events, s, env, front);
      ProcessKeepsInv(s, env, front);
      match last {
        case Look(k) => VisitRowsTell(events, t, env, k);
        case Side(e) =>
          SideKeepsWords(t, e);
          KeptWordsTell(events, t.rows, AfterSide(t, e).rows);
      }
    }
  }

  lemma {:induction false} EventRowsTell(events: seq<Event>, s: Sys, e: Event)
    requires Inv(s) && Possible(s, e) && RowsTell(events, s.rows)
    requires events != [] && events[|events| - 1] == e
    ensures RowsTell(events, After(s, e).rows)
  {
    hide Inv, RowsTell, Process, AfterSide, KeepsWords, Visit;
    match e
    case Evaluate(env, script) => ScriptRowsTell(events, s, env, script);
    case CrashInEvaluate(env, script, half) =>
      ScriptRowsTell(events, s, env, script);
      ProcessKeepsInv(s, env, script);
      if half.Some? { VisitRowsTell(events, Process(s, env, script), env, half.value.0); }
    case CrashIdle =>
    case Between(side) =>
      SideKeepsWords(s, side);
      KeptWordsTell(events, s.rows, AfterSide(s, side).rows);
  }

  /** Over any run, every row of the table says what the condition of its rule and target said in an evaluation of the
      run, at that evaluation's second; and if it is resolved, when an evaluation of the run lacked the condition. */
  lemma {:induction false} RowsTellTheRun(events: seq<Event>)
    requires Feasible(events)
    ensures RowsTell(events, Run(events).rows)
  {
    if events != [] {
      hide RowTells, After, Inv, Possible;
      var front, last := events[..|events| - 1], events[|events| - 1];
      FeasibleParts(events);
      RowsTellTheRun(front);
      Safety(front);
      SplitLast(events);
      forall id | id in Run(front).rows ensures RowTells(events, Run(front).rows[id]) {
        RowTellsLater(front, last, Run(front).rows[id]);
      }
      EventRowsTell(events, Run(front), last);
    }
  }

  lemma FeasibleParts(events: seq<Event>)
    requires events != [] && Feasible(events)
    ensures Feasible(events[..|events| - 1])
    ensures Possible(Run(events[..|events| - 1]), events[|events| - 1])
  {
    var n := |events| - 1;
    assert forall i | 0 <= i < n :: events[..n][..i] == events[..i] && events[..n][i] == events[i];
  }
}
