/** What the published messages say, over any run: firing ones what their row says, resolved ones the latest words of
    their alert. */
module AlertMessages {
  import opened Common
  import opened AlertKeys
  import opened AlertModel
  import opened AlertSafety
  import opened AlertDelivery
  import opened AlertContents

  // The latest words of an alert.

  function SeenBy(e: Event, k: Key, before: Option<Condition>): Option<Condition> {
    match e
    case Evaluate(env, _) => if k in env.active then Some(env.active[k]) else before
    case Between(_) => before
    case _ => None
  }

  /** The condition of a key in the last evaluation of the running process that had it. */
  function LastSeen(events: seq<Event>, k: Key): Option<Condition> {
    if events == [] then None else SeenBy(events[|events| - 1], k, LastSeen(events[..|events| - 1], k))
  }

  function WordsOfCondition(c: Condition): Words { Words(c.targetName, c.severity, c.message) }

  function WordsOfRow(r: AlertRow): Words { Words(r.targetName, r.severity, r.message) }

  /** What a process calls an alert: the words of that condition; those of the row if it has not seen one. */
  function LatestWords(events: seq<Event>, k: Key, row: AlertRow): Words {
    match LastSeen(events, k)
    case Some(c) => WordsOfCondition(c)
    case None => WordsOfRow(row)
  }

  ghost predicate TracksTell(events: seq<Event>, s: Sys) {
    forall k | k in s.tracks && s.tracks[k].alertID in s.rows ::
      WordsOf(s.tracks[k]) == LatestWords(events, k, s.rows[s.tracks[k].alertID])
  }

  /** Old rows keep their words. */
  ghost predicate OldWords(s: Sys, t: Sys) {
    && s.nextID <= t.nextID
    && forall id | id in t.rows && id < s.nextID :: id in s.rows && SameWords(s.rows[id], t.rows[id])
  }

  /** A visit, as far as words go: the track it visits, the others, and the rows. */
  ghost predicate WordsAfterVisit(s: Sys, t: Sys, env: Env, k: Key) {
    && OldWords(s, t)
    && (forall k' | k' in t.tracks && k' != k :: k' in s.tracks && t.tracks[k'] == s.tracks[k'])
    && (k in t.tracks && t.tracks[k].alertID != 0 && k in env.active ==>
          WordsOf(t.tracks[k]) == WordsOfCondition(env.active[k]))
    && (k in t.tracks && k !in env.active ==>
          k in s.tracks && WordsOf(t.tracks[k]) == WordsOf(s.tracks[k])
          && t.tracks[k].alertID == s.tracks[k].alertID)
  }

  lemma VisitedTrack(s: Sys, env: Env, k: Key)
    requires Inv(s) && ValidEnv(env)
    ensures var t := Visit(s, env, k);
      && (k in t.tracks && t.tracks[k].alertID != 0 && k in env.active ==>
            WordsOf(t.tracks[k]) == WordsOfCondition(env.active[k]))
      && (k in t.tracks && k !in env.active ==>
            k in s.tracks && WordsOf(t.tracks[k]) == WordsOf(s.tracks[k])
            && t.tracks[k].alertID == s.tracks[k].alertID)
  {
    if k in s.tracks { assert ValidTrack(s.tracks[k]); }
  }

  lemma VisitKeepsOldWords(s: Sys, env: Env, k: Key)
    requires Inv(s) && ValidEnv(env)
    ensures OldWords(s, Visit(s, env, k))
  {
    VisitShape(s, env, k);
    if Turns(s, env, k) {
      hide Visit, AfterSides;
      var stored, m := TurnStores(s, env, k);
      SidesKeepWords(stored, Amid(env, k));
      assert Visit(s, env, k).nextID >= s.nextID;
    } else {
      NoTurnKeeps(s, env, k);
    }
  }

  lemma {:induction false} VisitWords(s: Sys, env: Env, k: Key)
    requires Inv(s) && ValidEnv(env)
    ensures WordsAfterVisit(s, Visit(s, env, k), env, k)
  {
    hide Visit, OldWords;
    VisitKeepsOldWords(s, env, k);
    VisitedTrack(s, env, k);
    VisitShape(s, env, k);
  }

  /** A script that visits no key twice, as far as words go. */
  ghost predicate WordsAfterScript(s: Sys, t: Sys, env: Env, looked: seq<Key>) {
    && OldWords(s, t)
    && (forall k | k in t.tracks && k !in looked :: k in s.tracks && t.tracks[k] == s.tracks[k])
    && (forall k | k in t.tracks && t.tracks[k].alertID != 0 && k in looked && k in env.active ::
          WordsOf(t.tracks[k]) == WordsOfCondition(env.active[k]))
    && (forall k | k in t.tracks && k in looked && k !in env.active ::
          k in s.tracks && WordsOf(t.tracks[k]) == WordsOf(s.tracks[k]) && t.tracks[k].alertID == s.tracks[k].alertID)
  }

  lemma OldWordsGoOn(s: Sys, t: Sys, u: Sys)
    requires OldWords(s, t) && OldWords(t, u)
    ensures OldWords(s, u)
  {}

  lemma SideKeepsOldWords(s: Sys, e: SideEvent)
    ensures OldWords(s, AfterSide(s, e)) && AfterSide(s, e).tracks == s.tracks && AfterSide(s, e).log == s.log
    ensures AfterSide(s, e).nextID == s.nextID
  {
    SideKeepsWords(s, e);
  }

  lemma WordsGoOn(s: Sys, t: Sys, env: Env, looked: seq<Key>, k: Key, u: Sys)
    requires WordsAfterScript(s, t, env, looked) && WordsAfterVisit(t, u, env, k) && k !in looked
    ensures WordsAfterScript(s, u, env, looked + [k])
  {
    hide OldWords;
    OldWordsGoOn(s, t, u);
  }

  lemma {:induction false} ScriptWords(s: Sys, env: Env, script: seq<Act>)
    requires Inv(s) && ValidEnv(env) && NoDup(Looked(script))
    ensures WordsAfterScript(s, Process(s, env, script), env, Looked(script))
  {
    if script != [] {
      hide Inv, Visit, AfterSide, OldWords, ValidEnv, WordsAfterVisit;
      var front, last := script[..|script| - 1], script[|script| - 1];
      var t := Process(s, env, front);
      LookedParts(script);
      ScriptWords(s, env, front);
      ProcessKeepsInv(s, env, front);
      match last {
        case Look(k) =>
          VisitWords(t, env, k);
          WordsGoOn(s, t, env, Looked(front), k, Visit(t, env, k));
        case Side(e) =>
          SideKeepsOldWords(t, e);
          OldWordsGoOn(s, t, AfterSide(t, e));
      }
    }
  }

  lemma LookedParts(script: seq<Act>)
    requires script != [] && NoDup(Looked(script))
    ensures var front, last := script[..|script| - 1], script[|script| - 1];
      && NoDup(Looked(front)) && (last.Look? ==> last.k !in Looked(front))
      && Looked(script) == (if last.Look? then Looked(front) + [last.k] else Looked(front))
  {
    var front, last := script[..|script| - 1], script[|script| - 1];
    assert forall i | 0 <= i < |Looked(front)| :: Looked(script)[i] == Looked(front)[i];
    if last.Look? { assert Looked(script)[|Looked(front)|] == last.k; }
  }

  // The tracks, over a run.

  lemma LastSeenNext(events: seq<Event>, k: Key)
    requires events != []
    ensures LastSeen(events, k) == SeenBy(events[|events| - 1], k, LastSeen(events[..|events| - 1], k))
  {}

  lemma {:induction false} EvaluationTracksTell(events: seq<Event>, s: Sys, t: Sys, env: Env, script: seq<Act>)
    requires events != [] && events[|events| - 1] == Evaluate(env, script)
    requires Agrees(t) && ValidRows(s) && Agrees(s) && TracksTell(events[..|events| - 1], s)
    requires WordsAfterScript(s, t, env, Looked(script))
    requires forall k | k in env.active :: k in Looked(script)
    ensures TracksTell(events, t)
  {
    forall k | k in t.tracks && t.tracks[k].alertID in t.rows
      ensures WordsOf(t.tracks[k]) == LatestWords(events, k, t.rows[t.tracks[k].alertID])
    {
      LastSeenNext(events, k);
      if k !in env.active {
        var id := t.tracks[k].alertID;
        assert k in s.tracks && s.tracks[k].alertID == id;
        if id != 0 { assert SameWords(s.rows[id], t.rows[id]); }
      }
    }
  }

  lemma {:induction false} EventTracksTell(events: seq<Event>, s: Sys, e: Event)
    requires events != [] && events[|events| - 1] == e
    requires Inv(s) && Possible(s, e) && Inv(After(s, e)) && TracksTell(events[..|events| - 1], s)
    ensures TracksTell(events, After(s, e))
  {
    match e
    case Evaluate(env, script) =>
      hide Process, TracksTell, WordsAfterScript, LastSeen;
      ScriptWords(s, env, script);
      EvaluationTracksTell(events, s, Process(s, env, script), env, script);
    case Between(side) =>
      hide Inv;
      SideKeepsOldWords(s, side);
      SideKeepsWords(s, side);
    case CrashInEvaluate(env, script, half) =>
      hide Inv, Interrupted;
      RestartedTracksTell(events, Interrupted(s, env, script, half));
    case CrashIdle =>
      hide Inv;
      RestartedTracksTell(events, s);
  }

  lemma RestartedTracksTell(events: seq<Event>, left: Sys)
    requires events != [] && !events[|events| - 1].Evaluate? && !events[|events| - 1].Between?
    requires forall id | id in left.rows :: left.rows[id].id == id
    ensures TracksTell(events, Restart(left))
  {
    var t := Restart(left);
    forall k | k in t.tracks && t.tracks[k].alertID in t.rows
      ensures WordsOf(t.tracks[k]) == LatestWords(events, k, t.rows[t.tracks[k].alertID])
    {
      assert t.tracks[k] == RestoredTrack(left.rows[FiringRowOf(left.rows, k)]);
      LastSeenNext(events, k);
    }
  }

  lemma {:induction false} RunTracksTell(events: seq<Event>)
    requires Feasible(events)
    ensures TracksTell(events, Run(events))
  {
    if events != [] {
      hide TracksTell, After, Inv, Possible;
      var front, last := events[..|events| - 1], events[|events| - 1];
      FeasibleParts(events);
      RunTracksTell(front);
      Safety(front);
      AfterKeepsInv(Run(front), last);
      EventTracksTell(events, Run(front), last);
    }
  }

  // The messages.

  /** A firing message is known to the table: its id is given out, and its row, while there is one, says the same. */
  ghost predicate LogMatchesRows(s: Sys) {
    forall m | m in s.log && m.state.Firing? :: m.id < s.nextID && (m.id in s.rows ==> SameWords(m, s.rows[m.id]))
  }

  /** A message the visit of `k` publishes, in an evaluation that began in `s`. */
  ghost predicate PublishedAt(s: Sys, env: Env, k: Key, m: AlertRow) {
    if k in env.active then SaysFiring(env, env.active[k], m.id, m)
    else k in s.tracks && s.tracks[k].alertID == m.id != 0 && SaysResolved(env, k, m.id, WordsOf(s.tracks[k]), m)
  }

  ghost predicate Published(s: Sys, env: Env, log: seq<AlertRow>) {
    forall m | m in log :: m in s.log || exists k :: PublishedAt(s, env, k, m)
  }

  lemma {:induction false} VisitPublishes(s: Sys, env: Env, k: Key) returns (m: AlertRow)
    requires Inv(s) && ValidEnv(env) && LogMatchesRows(s)
    ensures LogMatchesRows(Visit(s, env, k))
    ensures Visit(s, env, k).log == s.log || (Visit(s, env, k).log == s.log + [m] && PublishedAt(s, env, k, m))
  {
    VisitKeepsOldWords(s, env, k);
    if Turns(s, env, k) {
      var stored;
      stored, m := TurnStores(s, env, k);
      if k in env.active { TurnedRow(s, env, k, stored, m); } else { HeldIsPositive(s, env, k); }
      hide Visit, AfterSides, Amid;
      assert forall x | x in Visit(s, env, k).log :: x in s.log || x == m;
    } else {
      m := ResolvedMessage(k, FreshTrack, 0);
      NoTurnKeeps(s, env, k);
    }
  }

  /** The notification of a visit says what its message says. */
  lemma NoteSaysTheMessage(s: Sys, env: Env, k: Key) returns (m: AlertRow)
    requires Turns(s, env, k)
    ensures Visit(s, env, k).log == s.log + [m]
    ensures var note := NoteOf(s, env, k);
      && note.text.state == m.state && note.text.severity == m.severity && note.text.rule == m.rule
      && note.text.targetName == m.targetName && note.text.message == m.message && note.text.at == env.now
      && note.alertID == if m.state.Firing? then m.id else 0
  {
    var stored;
    stored, m := TurnStores(s, env, k);
  }

  lemma HeldIsPositive(s: Sys, env: Env, k: Key)
    requires Turns(s, env, k) && k !in env.active
    ensures k in s.tracks && s.tracks[k].alertID != 0
  {}

  /** The row a firing message was published with says the same. */
  lemma TurnedRow(s: Sys, env: Env, k: Key, stored: Sys, m: AlertRow)
    requires Turns(s, env, k) && k in env.active && Inv(s) && ValidEnv(env)
    requires stored.rows == s.rows[s.nextID := m] && m.id == s.nextID
    requires Visit(s, env, k).rows == AfterSides(stored, Amid(env, k)).rows
    ensures Visit(s, env, k).nextID == s.nextID + 1
    ensures m.id in Visit(s, env, k).rows ==> SameWords(m, Visit(s, env, k).rows[m.id])
  {
    SidesKeepWords(stored, Amid(env, k));
    VisitShape(s, env, k);
  }

  /** One more visit of an evaluation that began in `s` and stands at `t`. */
  lemma PublishedNext(s: Sys, t: Sys, env: Env, looked: seq<Key>, k: Key, m: AlertRow)
    requires WordsAfterScript(s, t, env, looked) && k !in looked && PublishedAt(t, env, k, m)
    ensures PublishedAt(s, env, k, m)
  {}

  lemma {:induction false} ScriptPublishes(s: Sys, env: Env, script: seq<Act>)
    requires Inv(s) && ValidEnv(env) && LogMatchesRows(s) && NoDup(Looked(script))
    ensures Published(s, env, Process(s, env, script).log) && LogMatchesRows(Process(s, env, script))
  {
    if script != [] {
      hide Inv, Visit, AfterSide, OldWords, ValidEnv, WordsAfterScript, PublishedAt, LogMatchesRows;
      var front, last := script[..|script| - 1], script[|script| - 1];
      var t := Process(s, env, front);
      LookedParts(script);
      ScriptPublishes(s, env, front);
      ProcessKeepsInv(s, env, front);
      ScriptWords(s, env, front);
      match last {
        case Look(k) =>
          var m := VisitPublishes(t, env, k);
          if Visit(t, env, k).log == t.log + [m] && PublishedAt(t, env, k, m) {
            PublishedNext(s, t, env, Looked(front), k, m);
          }
        case Side(e) => SideKeepsLog(t, e);
      }
    }
  }

  lemma SideKeepsLog(s: Sys, e: SideEvent)
    requires LogMatchesRows(s)
    ensures LogMatchesRows(AfterSide(s, e)) && AfterSide(s, e).log == s.log
  {
    SideKeepsWords(s, e);
  }

  /** Message `m` was published in event `i`: a firing one says what the condition of its rule and target said; a
      resolved one is of a row that was firing, whose condition was missing, in the latest words of its alert. */
  ghost predicate TellsAt(events: seq<Event>, i: nat, m: AlertRow)
    requires i < |events|
  {
    EnvOf(events[i]).Some? &&
    var env, s := EnvOf(events[i]).value, Run(events[..i]);
    if m.state.Firing? then
      var k := m.rule + "|" + m.target;
      k in env.active && SaysFiring(env, env.active[k], m.id, m)
    else
      m.id in s.rows && s.rows[m.id].state.Firing? &&
      var row := s.rows[m.id];
      var k := row.rule + "|" + row.target;
      k !in env.active && SaysResolved(env, k, m.id, LatestWords(events[..i], k, row), m)
  }

  ghost predicate LogTells(events: seq<Event>, log: seq<AlertRow>) {
    forall m | m in log :: exists i: nat :: i < |events| && TellsAt(events, i, m)
  }

  lemma {:induction false} NewMessageTells(events: seq<Event>, env: Env, k: Key, m: AlertRow)
    requires events != [] && EnvOf(events[|events| - 1]) == Some(env) && ValidEnv(env)
    requires var s := Run(events[..|events| - 1]);
      Agrees(s) && TracksTell(events[..|events| - 1], s) && PublishedAt(s, env, k, m)
    ensures TellsAt(events, |events| - 1, m)
  {
    hide Run, LastSeen;
    if k in env.active { assert m.rule + "|" + m.target == k; }
  }

  lemma {:induction false} EventLogTells(events: seq<Event>, e: Event)
    requires events != [] && events[|events| - 1] == e && Feasible(events)
    requires LogMatchesRows(Run(events[..|events| - 1]))
    ensures LogMatchesRows(Run(events))
    ensures forall m | m in Run(events).log ::
      m in Run(events[..|events| - 1]).log || TellsAt(events, |events| - 1, m)
  {
    var front := events[..|events| - 1];
    var s := Run(front);
    FeasibleParts(events);
    Safety(front);
    RunTracksTell(front);
    match e
    case Evaluate(env, script) =>
      hide Run, Process, Inv, TellsAt, LogMatchesRows, PublishedAt, TracksTell;
      ScriptPublishes(s, env, script);
      RunNext(events);
      MessagesTell(events, env, Process(s, env, script).log);
    case CrashInEvaluate(env, script, half) =>
      hide Run, Process, Inv, TellsAt, LogMatchesRows, PublishedAt, TracksTell, Half;
      InterruptedPublishes(s, env, script, half);
      RunNext(events);
      RestartKeepsLog(Interrupted(s, env, script, half));
      MessagesTell(events, env, Interrupted(s, env, script, half).log);
    case CrashIdle =>
      RunNext(events);
      RestartKeepsLog(s);
    case Between(side) =>
      RunNext(events);
      SideKeepsLog(s, side);
  }

  lemma RunNext(events: seq<Event>)
    requires events != []
    ensures Run(events) == After(Run(events[..|events| - 1]), events[|events| - 1])
  {}

  lemma RestartKeepsLog(s: Sys)
    requires LogMatchesRows(s)
    ensures LogMatchesRows(Restart(s)) && Restart(s).log == s.log
  {}

  lemma {:induction false} MessagesTell(events: seq<Event>, env: Env, log: seq<AlertRow>)
    requires events != [] && EnvOf(events[|events| - 1]) == Some(env) && ValidEnv(env)
    requires var s := Run(events[..|events| - 1]);
      Agrees(s) && TracksTell(events[..|events| - 1], s) && Published(s, env, log)
    ensures forall m | m in log :: m in Run(events[..|events| - 1]).log || TellsAt(events, |events| - 1, m)
  {
    hide Run, TellsAt, PublishedAt, TracksTell, Agrees;
    var s := Run(events[..|events| - 1]);
    forall m | m in log && m !in s.log ensures TellsAt(events, |events| - 1, m) {
      var k :| PublishedAt(s, env, k, m);
      NewMessageTells(events, env, k, m);
    }
  }

  /** The same for an evaluation cut short, also inside a visit. */
  lemma {:induction false} InterruptedPublishes(s: Sys, env: Env, script: seq<Act>, half: Option<(Key, Cut)>)
    requires Inv(s) && Possible(s, CrashInEvaluate(env, script, half)) && LogMatchesRows(s)
    ensures Published(s, env, Interrupted(s, env, script, half).log)
    ensures LogMatchesRows(Interrupted(s, env, script, half))
  {
    hide Inv, LogMatchesRows, PublishedAt, WordsAfterScript, Process, Visit;
    var t := Process(s, env, script);
    ScriptPublishes(s, env, script);
    if half.Some? {
      var k := half.value.0;
      ProcessKeepsInv(s, env, script);
      ScriptWords(s, env, script);
      var m := VisitPublishes(t, env, k);
      if Visit(t, env, k).log == t.log + [m] && PublishedAt(t, env, k, m) {
        PublishedNext(s, t, env, Looked(script), k, m);
      }
      HalfKeepsLog(t, env, k, half.value.1);
    }
  }

  lemma HalfKeepsLog(s: Sys, env: Env, k: Key, cut: Cut)
    requires Inv(s) && ValidEnv(env) && LogMatchesRows(s) && LogMatchesRows(Visit(s, env, k))
    ensures LogMatchesRows(Half(s, env, k, cut))
    ensures Half(s, env, k, cut).log == if cut.Published? then Visit(s, env, k).log else s.log
  {
    VisitKeepsOldWords(s, env, k);
  }

  lemma TellsAtLater(events: seq<Event>, i: nat, m: AlertRow)
    requires events != [] && i < |events| - 1 && TellsAt(events[..|events| - 1], i, m)
    ensures TellsAt(events, i, m)
  {
    hide Run, LastSeen;
    assert events[..|events| - 1][..i] == events[..i];
  }

  /** Over any run, every firing message says what the condition of its rule and target said in an evaluation of the
      run, and what its row says; every resolved message is of an alert that was firing and whose condition was
      missing, under the words its process last had for it. */
  lemma {:induction false} MessagesTellTheRun(events: seq<Event>)
    requires Feasible(events)
    ensures LogTells(events, Run(events).log) && LogMatchesRows(Run(events))
  {
    if events != [] {
      hide TellsAt, LogMatchesRows, Run, Feasible;
      var front := events[..|events| - 1];
      FeasibleParts(events);
      MessagesTellTheRun(front);
      EventLogTells(events, events[|events| - 1]);
      forall m | m in Run(events).log ensures exists i: nat :: i < |events| && TellsAt(events, i, m) {
        if m in Run(front).log {
          var i: nat :| i < |front| && TellsAt(front, i, m);
          TellsAtLater(events, i, m);
        } else {
          assert TellsAt(events, |events| - 1, m);
        }
      }
    } else {
      StartsSilent();
    }
  }

  lemma StartsSilent()
    ensures Run([]).log == []
  {}
}
