/** The alert messages of one process and the firing rows: a browser that loads a snapshot and replays
    the messages shows the firing alerts. */
module AlertReplay {
  import opened Common
  import opened AlertKeys
  import opened AlertModel
  import opened AlertSafety
  import opened Dashboard

  ghost function FiringOf(rows: map<int, AlertRow>): set<int> {
    set id | id in rows && rows[id].state.Firing?
  }

  ghost function FiringIds(s: Sys): set<int> { FiringOf(s.rows) }

  /** `t` comes after `s` within one process: the log grew, and what it gained turns the firing ids of
      `s` into those of `t`. */
  ghost predicate LogExplains(s: Sys, t: Sys) {
    s.log <= t.log && FiringIds(t) == Replay(FiringIds(s), t.log[|s.log|..])
  }

  lemma {:induction false} ReplayConcat(ids: set<int>, a: seq<AlertRow>, b: seq<AlertRow>)
    ensures Replay(ids, a + b) == Replay(Replay(ids, a), b)
  {
    if b == [] {
      assert a + b == a;
    } else {
      ReplayConcat(ids, a, b[..|b| - 1]);
      assert (a + b)[..|a + b| - 1] == a + b[..|b| - 1];
    }
  }

  lemma ExplainsTransitive(s: Sys, t: Sys, u: Sys)
    requires LogExplains(s, t) && LogExplains(t, u)
    ensures LogExplains(s, u)
  {
    ReplayConcat(FiringIds(s), t.log[|s.log|..], u.log[|t.log|..]);
    assert u.log[|s.log|..] == t.log[|s.log|..] + u.log[|t.log|..];
  }

  lemma ExplainsOne(s: Sys, t: Sys, m: AlertRow)
    requires t.log == s.log + [m] && FiringIds(t) == Replay(FiringIds(s), [m])
    ensures LogExplains(s, t)
  {
    assert t.log[|s.log|..] == [m];
  }

  lemma ExplainsNothing(s: Sys, t: Sys)
    requires t.log == s.log && FiringIds(t) == FiringIds(s)
    ensures LogExplains(s, t)
  {
    assert t.log[|s.log|..] == [];
  }

  lemma SameIds(a: map<int, AlertRow>, b: map<int, AlertRow>)
    requires SameFiring(a, b)
    ensures FiringOf(a) == FiringOf(b)
  {
    forall id ensures id in FiringOf(a) <==> id in FiringOf(b) {}
  }

  lemma OpenedIds(s: Sys, t: Sys, k: Key, row: AlertRow)
    requires Opened(s, t, k, row)
    ensures FiringIds(t) == FiringIds(s) + {s.nextID}
  {
    SameIds(s.rows[s.nextID := row], t.rows);
    assert FiringOf(s.rows[s.nextID := row]) == FiringOf(s.rows) + {s.nextID};
  }

  lemma ClosedIds(s: Sys, t: Sys, k: Key, at: int)
    requires Closed(s, t, k, at)
    ensures FiringIds(t) == FiringIds(s) - {HeldID(s.tracks, k)}
  {
    var id := HeldID(s.tracks, k);
    SameIds(ResolveRow(s.rows, id, at), t.rows);
    assert FiringOf(ResolveRow(s.rows, id, at)) == FiringOf(s.rows) - {id};
  }

  lemma OpenedIsExplained(s: Sys, t: Sys, k: Key, row: AlertRow)
    requires Opened(s, t, k, row)
    ensures LogExplains(s, t)
  {
    assert [row][..0] == [];
    OpenedIds(s, t, k, row);
    ExplainsOne(s, t, row);
  }

  lemma ClosedIsExplained(s: Sys, t: Sys, k: Key, at: int)
    requires Closed(s, t, k, at)
    ensures LogExplains(s, t)
  {
    var m := t.log[|s.log|];
    assert [m][..0] == [] && t.log == s.log + [m];
    ClosedIds(s, t, k, at);
    ExplainsOne(s, t, m);
  }

  lemma VisitIsExplained(s: Sys, env: Env, k: Key)
    requires Inv(s) && ValidEnv(env)
    ensures LogExplains(s, Visit(s, env, k))
    ensures |Visit(s, env, k).log| <= |s.log| + 1
  {
    var t := Visit(s, env, k);
    VisitShape(s, env, k);
    if Waited(s, t, k) {
      ExplainsNothing(s, t);
    } else if k in env.active {
      OpenedIsExplained(s, t, k, NewRow(s.nextID, env.active[k], Unix(env.now)));
    } else {
      ClosedIsExplained(s, t, k, Unix(env.now));
    }
  }

  lemma SideIsExplained(s: Sys, e: SideEvent)
    ensures LogExplains(s, AfterSide(s, e))
  {
    SideSameFiring(s, e);
    SameIds(s.rows, AfterSide(s, e).rows);
    ExplainsNothing(s, AfterSide(s, e));
  }

  lemma {:induction false} ProcessIsExplained(s: Sys, env: Env, script: seq<Act>)
    requires Inv(s) && ValidEnv(env)
    ensures LogExplains(s, Process(s, env, script))
  {
    if script == [] {
      ExplainsNothing(s, s);
    } else {
      var front, last := script[..|script| - 1], script[|script| - 1];
      var t := Process(s, env, front);
      ProcessIsExplained(s, env, front);
      ProcessKeepsInv(s, env, front);
      match last {
        case Look(k) => VisitIsExplained(t, env, k);
        case Side(e) => SideIsExplained(t, e);
      }
      ExplainsTransitive(s, t, Process(s, env, script));
    }
  }

  ghost predicate NoCrash(events: seq<Event>) {
    forall e | e in events :: e.Evaluate? || e.Between?
  }

  ghost function RunFrom(s: Sys, events: seq<Event>): Sys {
    if events == [] then s else After(RunFrom(s, events[..|events| - 1]), events[|events| - 1])
  }

  ghost predicate FeasibleFrom(s: Sys, events: seq<Event>) {
    forall i | 0 <= i < |events| :: Possible(RunFrom(s, events[..i]), events[i])
  }

  lemma FeasibleFront(s: Sys, events: seq<Event>)
    requires events != [] && FeasibleFrom(s, events) && NoCrash(events)
    ensures FeasibleFrom(s, events[..|events| - 1]) && NoCrash(events[..|events| - 1])
    ensures Possible(RunFrom(s, events[..|events| - 1]), events[|events| - 1])
  {
    var n := |events| - 1;
    assert forall i | 0 <= i < n :: events[..n][..i] == events[..i] && events[..n][i] == events[i];
  }

  lemma {:induction false} RunIsExplained(s: Sys, events: seq<Event>)
    requires Inv(s) && FeasibleFrom(s, events) && NoCrash(events)
    ensures Inv(RunFrom(s, events)) && LogExplains(s, RunFrom(s, events))
  {
    if events == [] {
      ExplainsNothing(s, s);
    } else {
      var n := |events| - 1;
      var front, last := events[..n], events[n];
      FeasibleFront(s, events);
      RunIsExplained(s, front);
      var t := RunFrom(s, front);
      AfterKeepsInv(t, last);
      assert last in events;
      match last {
        case Evaluate(env, script) => ProcessIsExplained(t, env, script);
        case Between(e) => SideIsExplained(t, e);
      }
      ExplainsTransitive(s, t, After(t, last));
    }
  }

  /** A snapshot is read between events, between two visits of an evaluation, or inside a visit, after its store
      write and before its message, when others have done `sofar` in the meantime. */
  datatype Moment =
    | Calm
    | Within(env: Env, done: seq<Act>, rest: seq<Act>)
    | InsideVisit(env: Env, done: seq<Act>, k: Key, sofar: seq<SideEvent>, rest: seq<Act>)

  /** The whole evaluation a moment lies in. */
  function ScriptOf(m: Moment): seq<Act>
    requires !m.Calm?
  {
    if m.Within? then m.done + m.rest else m.done + [Look(m.k)] + m.rest
  }

  function SnapshotAt(s: Sys, m: Moment): Sys {
    match m
    case Calm => s
    case Within(env, done, _) => Process(s, env, done)
    case InsideVisit(env, done, k, sofar, _) =>
      Half(Process(s, env, done), env.(amid := env.amid[k := sofar]), k, Stored)
  }

  function Finish(s: Sys, m: Moment): Sys {
    if m.Calm? then s else Process(s, m.env, ScriptOf(m))
  }

  lemma {:induction false} ProcessConcat(s: Sys, env: Env, a: seq<Act>, b: seq<Act>)
    ensures Process(s, env, a + b) == Process(Process(s, env, a), env, b)
  {
    hide AfterAct;
    if b == [] {
      assert a + b == a;
    } else {
      ProcessConcat(s, env, a, b[..|b| - 1]);
      assert (a + b)[..|a + b| - 1] == a + b[..|b| - 1];
    }
  }

  lemma LogIgnoresOthers(s: Sys, env: Env, k: Key, sofar: seq<SideEvent>)
    requires Inv(s)
    ensures Visit(s, env.(amid := env.amid[k := sofar]), k).log == Visit(s, env, k).log
  {
    hide AfterSides, Enqueued, Amid, Inv;
  }

  /** Inside a visit the table shows what it will after it, whatever others have done. */
  lemma HalfShowsTheMessage(s: Sys, env: Env, k: Key, sofar: seq<SideEvent>)
    requires Inv(s) && ValidEnv(env)
    ensures FiringIds(Half(s, env.(amid := env.amid[k := sofar]), k, Stored)) == FiringIds(Visit(s, env, k))
  {
    LogIgnoresOthers(s, env, k, sofar);
    VisitIsExplained(s, env, k);
    VisitIsExplained(s, env.(amid := env.amid[k := sofar]), k);
  }

  lemma SnapshotWithin(s: Sys, m: Moment) returns (p: nat)
    requires m.Within? && Inv(s) && ValidEnv(m.env)
    ensures var u, t := SnapshotAt(s, m), Finish(s, m);
      && |u.log| <= p <= |t.log| && |s.log| <= |u.log| && s.log <= t.log
      && FiringIds(u) == Replay(FiringIds(s), t.log[|s.log|..p])
  {
    var u, t := SnapshotAt(s, m), Finish(s, m);
    ProcessIsExplained(s, m.env, m.done);
    ProcessKeepsInv(s, m.env, m.done);
    ProcessIsExplained(u, m.env, m.rest);
    ProcessConcat(s, m.env, m.done, m.rest);
    p := |u.log|;
    assert t.log[|s.log|..p] == u.log[|s.log|..];
  }

  lemma ProcessLook(s: Sys, env: Env, done: seq<Act>, k: Key)
    ensures Process(s, env, done + [Look(k)]) == Visit(Process(s, env, done), env, k)
  {
    assert (done + [Look(k)])[..|done|] == done;
  }

  lemma SnapshotInside(s: Sys, m: Moment) returns (p: nat)
    requires m.InsideVisit? && Inv(s) && ValidEnv(m.env)
    ensures var u, t := SnapshotAt(s, m), Finish(s, m);
      && |u.log| <= p <= |t.log| && |s.log| <= |u.log| && s.log <= t.log
      && FiringIds(u) == Replay(FiringIds(s), t.log[|s.log|..p])
  {
    var b := Process(s, m.env, m.done);
    var v := Visit(b, m.env, m.k);
    ProcessIsExplained(s, m.env, m.done);
    ProcessKeepsInv(s, m.env, m.done);
    VisitIsExplained(b, m.env, m.k);
    VisitKeepsInv(b, m.env, m.k);
    ExplainsTransitive(s, b, v);
    ProcessIsExplained(v, m.env, m.rest);
    ProcessLook(s, m.env, m.done, m.k);
    ProcessConcat(s, m.env, m.done + [Look(m.k)], m.rest);
    p := |v.log|;
    assert Finish(s, m).log[|s.log|..p] == v.log[|s.log|..];
    HalfShowsTheMessage(b, m.env, m.k, m.sofar);
  }

  /** The firing rows a snapshot shows are the start's, with the messages up to a point `p` replayed; the
      point lies at or after what was published by then. */
  lemma SnapshotIsAReplay(s: Sys, m: Moment) returns (p: nat)
    requires Inv(s) && (!m.Calm? ==> ValidEnv(m.env))
    ensures var u, t := SnapshotAt(s, m), Finish(s, m);
      && |u.log| <= p <= |t.log| && |s.log| <= |u.log| && s.log <= t.log
      && FiringIds(u) == Replay(FiringIds(s), t.log[|s.log|..p])
  {
    match m
    case Calm =>
      p := |s.log|;
      assert s.log[p..p] == [];
    case Within(_, _, _) => p := SnapshotWithin(s, m);
    case InsideVisit(_, _, _, _, _) => p := SnapshotInside(s, m);
  }

  lemma FinishIsExplained(s: Sys, m: Moment)
    requires Inv(s) && (!m.Calm? ==> ValidEnv(m.env))
    ensures Inv(Finish(s, m)) && LogExplains(s, Finish(s, m))
  {
    if m.Calm? {
      ExplainsNothing(s, s);
    } else {
      ProcessIsExplained(s, m.env, ScriptOf(m));
      ProcessKeepsInv(s, m.env, ScriptOf(m));
    }
  }

  /** ReplayConverges for a snapshot `u` that shows the messages up to `p` of the log of `t`, at the end
      of the log of `end`. */
  lemma ConvergesInLog(s: Sys, u: Sys, t: Sys, end: Sys, a: nat, p: nat)
    requires LogExplains(s, t) && LogExplains(t, end)
    requires |s.log| <= a <= p <= |t.log| && FiringIds(u) == Replay(FiringIds(s), t.log[|s.log|..p])
    ensures a <= |end.log| && Replay(FiringIds(u), end.log[a..]) == FiringIds(end)
  {
    hide Replay, FiringIds;
    var o, log := |s.log|, end.log;
    ExplainsTransitive(s, t, end);
    ReplayConverges(FiringIds(s), log[o..], a - o, p - o);
    assert log[o..][..p - o] == t.log[o..p] && log[o..][a - o..] == log[a..];
  }

  /** The same point of the log, seen from an earlier state of the process. */
  lemma ReplayFromEarlier(s0: Sys, s: Sys, t: Sys, u: Sys, p: nat)
    requires LogExplains(s0, s) && s.log <= t.log && |s.log| <= p <= |t.log|
    requires FiringIds(u) == Replay(FiringIds(s), t.log[|s.log|..p])
    ensures FiringIds(u) == Replay(FiringIds(s0), t.log[|s0.log|..p])
  {
    ReplayConcat(FiringIds(s0), s.log[|s0.log|..], t.log[|s.log|..p]);
    assert t.log[|s0.log|..p] == s.log[|s0.log|..] + t.log[|s.log|..p];
  }

  /** Start: any state `s0` of a running process, which runs on without crash through `before`. A snapshot is
      then taken at moment `m`, the process finishes that evaluation and runs on. Replaying every message from
      some message `a` on, where `a` is any message since the start that had been or was just being published
      when the snapshot was read, gives the firing alerts of the final state: messages the snapshot already
      shows, however old, do no harm, and none may be missing. */
  lemma {:induction false} BrowserConverges(s0: Sys, before: seq<Event>, m: Moment, events: seq<Event>, a: nat)
    requires Inv(s0) && FeasibleFrom(s0, before) && NoCrash(before)
    requires !m.Calm? ==> Possible(RunFrom(s0, before), Evaluate(m.env, ScriptOf(m)))
    requires FeasibleFrom(Finish(RunFrom(s0, before), m), events) && NoCrash(events)
    requires |s0.log| <= a <= |SnapshotAt(RunFrom(s0, before), m).log|
    ensures var s := RunFrom(s0, before);
      var end := RunFrom(Finish(s, m), events);
      a <= |end.log| && Replay(FiringIds(SnapshotAt(s, m)), end.log[a..]) == FiringIds(end)
  {
    var s := RunFrom(s0, before);
    var u, t := SnapshotAt(s, m), Finish(s, m);
    RunIsExplained(s0, before);
    var p := SnapshotIsAReplay(s, m);
    FinishIsExplained(s, m);
    RunIsExplained(t, events);
    ReplayFromEarlier(s0, s, t, u, p);
    ExplainsTransitive(s0, s, t);
    ConvergesInLog(s0, u, t, RunFrom(t, events), a, p);
  }

  /** The same for the reducer: its list holds each firing alert's id once. */
  lemma {:induction false} ReducerConverges(
    s0: Sys, before: seq<Event>, m: Moment, events: seq<Event>, a: nat,
    state: State, loaded: seq<AlertRow>, actions: seq<Action>)
    requires Inv(s0) && FeasibleFrom(s0, before) && NoCrash(before)
    requires !m.Calm? ==> Possible(RunFrom(s0, before), Evaluate(m.env, ScriptOf(m)))
    requires FeasibleFrom(Finish(RunFrom(s0, before), m), events) && NoCrash(events)
    requires |s0.log| <= a <= |SnapshotAt(RunFrom(s0, before), m).log|
    requires a <= |RunFrom(Finish(RunFrom(s0, before), m), events).log|
    requires DistinctIds(loaded) && Ids(loaded) == FiringIds(SnapshotAt(RunFrom(s0, before), m))
    requires forall x | x in actions :: !x.Loaded?
    requires AlertsIn(actions) == RunFrom(Finish(RunFrom(s0, before), m), events).log[a..]
    ensures var end := ReduceAll(Reduce(state, Loaded(Overview(loaded))), actions);
      end.overview.Some? && DistinctIds(end.overview.value.alerts)
      && Ids(end.overview.value.alerts) == FiringIds(RunFrom(Finish(RunFrom(s0, before), m), events))
  {
    BrowserConverges(s0, before, m, events, a);
    ListFollowsReplay(state, loaded, actions);
  }

  // Lost messages.

  /** The messages `t` has published since `s`, and where their alerts stand in `t`. */
  ghost predicate Kept(s: Sys, t: Sys) {
    && s.log <= t.log && s.nextID <= t.nextID
    && var gained := t.log[|s.log|..];
       && Orderly(FiringIds(s), gained)
       && (forall i | 0 <= i < |gained| :: gained[i].id < t.nextID)
       && (forall i | 0 <= i < |gained| && gained[i].state.Firing? :: gained[i].id >= s.nextID)
       && (forall i | 0 <= i < |gained| && gained[i].state.Resolved? :: gained[i].id !in FiringIds(t))
  }

  lemma KeptSoFar(s: Sys, t: Sys, u: Sys)
    requires Kept(s, t) && u.log == t.log && u.nextID == t.nextID && FiringIds(u) == FiringIds(t)
    ensures Kept(s, u)
  {}

  /** One more message: a firing one of a new alert, or the resolved one of a firing alert. */
  lemma OneMoreIsKept(s: Sys, t: Sys, u: Sys, m: AlertRow)
    requires Inv(s) && Kept(s, t) && u.log == t.log + [m] && u.nextID >= t.nextID && m.id < u.nextID
    requires if m.state.Firing? then m.id == t.nextID && FiringIds(u) == FiringIds(t) + {m.id}
             else m.id in FiringIds(t) && FiringIds(u) == FiringIds(t) - {m.id}
    ensures Kept(s, u)
  {
    var g := t.log[|s.log|..];
    assert u.log[|s.log|..] == g + [m];
    OneMoreIsOrderly(s, t, g, m);
    assert forall i | 0 <= i < |g| :: (g + [m])[i] == g[i];
  }

  lemma OneMoreIsOrderly(s: Sys, t: Sys, g: seq<AlertRow>, m: AlertRow)
    requires Inv(s) && s.nextID <= t.nextID && Orderly(FiringIds(s), g)
    requires forall i | 0 <= i < |g| :: g[i].id < t.nextID
    requires forall i | 0 <= i < |g| && g[i].state.Resolved? :: g[i].id !in FiringIds(t)
    requires m.id == t.nextID || (m.state.Resolved? && m.id in FiringIds(t))
    ensures Orderly(FiringIds(s), g + [m])
  {
    assert forall i | 0 <= i < |g| :: (g + [m])[i] == g[i];
    assert forall id | id in FiringIds(s) :: id < s.nextID;
  }

  lemma LookIsKept(s: Sys, t: Sys, env: Env, k: Key)
    requires Inv(s) && Inv(t) && ValidEnv(env) && Kept(s, t)
    ensures Kept(s, Visit(t, env, k))
  {
    hide Visit, Kept;
    var u := Visit(t, env, k);
    VisitShape(t, env, k);
    if Waited(t, u, k) {
      KeptSoFar(s, t, u);
    } else if k in env.active {
      var row := NewRow(t.nextID, env.active[k], Unix(env.now));
      OpenedIds(t, u, k, row);
      OneMoreIsKept(s, t, u, row);
    } else {
      var m := u.log[|t.log|];
      ClosedIds(t, u, k, Unix(env.now));
      assert u.log == t.log + [m] && m.id in FiringIds(t);
      OneMoreIsKept(s, t, u, m);
    }
  }

  lemma SideIsKept(s: Sys, t: Sys, e: SideEvent)
    requires Kept(s, t)
    ensures Kept(s, AfterSide(t, e))
  {
    SideSameFiring(t, e);
    SameIds(t.rows, AfterSide(t, e).rows);
    KeptSoFar(s, t, AfterSide(t, e));
  }

  lemma {:induction false} ProcessIsKept(s: Sys, t: Sys, env: Env, script: seq<Act>)
    requires Inv(s) && Inv(t) && ValidEnv(env) && Kept(s, t)
    ensures Kept(s, Process(t, env, script))
  {
    if script != [] {
      ProcessIsKept(s, t, env, script[..|script| - 1]);
      ProcessKeepsInv(t, env, script[..|script| - 1]);
      match script[|script| - 1]
      case Look(k) => LookIsKept(s, Process(t, env, script[..|script| - 1]), env, k);
      case Side(e) => SideIsKept(s, Process(t, env, script[..|script| - 1]), e);
    }
  }

  lemma AfterIsKept(s: Sys, t: Sys, e: Event)
    requires Inv(s) && Inv(t) && Kept(s, t) && Possible(t, e) && (e.Evaluate? || e.Between?)
    ensures Kept(s, After(t, e))
  {
    match e
    case Evaluate(env, script) => ProcessIsKept(s, t, env, script);
    case Between(side) => SideIsKept(s, t, side);
  }

  /** What a running process publishes stays orderly while it runs on. */
  lemma {:induction false} RunIsKept(s: Sys, t: Sys, events: seq<Event>)
    requires Inv(s) && Inv(t) && Kept(s, t) && FeasibleFrom(t, events) && NoCrash(events)
    ensures Kept(s, RunFrom(t, events))
  {
    if events != [] {
      var n := |events| - 1;
      FeasibleFront(t, events);
      RunIsKept(s, t, events[..n]);
      RunIsExplained(t, events[..n]);
      assert events[n] in events;
      AfterIsKept(s, RunFrom(t, events[..n]), events[n]);
    }
  }

  /** What a running process publishes is an orderly log. */
  lemma {:induction false} LogIsOrderly(s: Sys, events: seq<Event>)
    requires Inv(s) && FeasibleFrom(s, events) && NoCrash(events)
    ensures Kept(s, RunFrom(s, events))
  {
    assert s.log[|s.log|..] == [];
    RunIsKept(s, s, events);
  }

  lemma LossInLog(s0: Sys, u: Sys, end: Sys, p: nat, got: nat -> bool)
    requires LogExplains(s0, end) && Kept(s0, end) && |s0.log| <= p <= |end.log|
    requires FiringIds(u) == Replay(FiringIds(s0), end.log[|s0.log|..p])
    ensures var gained := end.log[|s0.log|..];
      Replay(FiringIds(u), Received(gained, got)) == FiringIds(end) <==> NothingMissed(FiringIds(u), gained, got)
  {
    var gained := end.log[|s0.log|..];
    LossOnALog(FiringIds(s0), gained, p - |s0.log|, got);
    assert gained[..p - |s0.log|] == end.log[|s0.log|..p];
  }

  /** As in BrowserConverges, with any of the messages since `s0` lost: `got` says of each whether it arrives. The
      browser converges exactly when it misses none: no lost resolve of an alert it shows or has heard of, no lost
      firing of an alert that it does not show and that is not resolved later. */
  lemma {:induction false} LossMattersExactlyWhen(
    s0: Sys, before: seq<Event>, m: Moment, events: seq<Event>, got: nat -> bool)
    requires Inv(s0) && FeasibleFrom(s0, before) && NoCrash(before)
    requires !m.Calm? ==> Possible(RunFrom(s0, before), Evaluate(m.env, ScriptOf(m)))
    requires FeasibleFrom(Finish(RunFrom(s0, before), m), events) && NoCrash(events)
    ensures var s := RunFrom(s0, before);
      var u, end := SnapshotAt(s, m), RunFrom(Finish(s, m), events);
      s0.log <= end.log &&
      var gained := end.log[|s0.log|..];
      (Replay(FiringIds(u), Received(gained, got)) == FiringIds(end) <==> NothingMissed(FiringIds(u), gained, got))
  {
    hide Replay, Received, NothingMissed, FiringIds, SnapshotAt, RunFrom, Inv, Kept;
    var s := RunFrom(s0, before);
    var u, t := SnapshotAt(s, m), Finish(s, m);
    var end := RunFrom(t, events);
    LogIsOrderly(s0, before);
    RunIsExplained(s0, before);
    FinishIsKept(s0, s, m);
    FinishIsExplained(s, m);
    RunIsKept(s0, t, events);
    RunIsExplained(t, events);
    var p := SnapshotIsAReplay(s, m);
    ReplayFromEarlier(s0, s, t, u, p);
    ExplainsTransitive(s0, s, t);
    ExplainsTransitive(s0, t, end);
    assert end.log[|s0.log|..p] == t.log[|s0.log|..p];
    LossInLog(s0, u, end, p, got);
  }

  lemma FinishIsKept(s0: Sys, s: Sys, m: Moment)
    requires Inv(s0) && Inv(s) && Kept(s0, s) && (!m.Calm? ==> ValidEnv(m.env))
    ensures Kept(s0, Finish(s, m))
  {
    if !m.Calm? { ProcessIsKept(s0, s, m.env, ScriptOf(m)); }
  }

  /** The first evaluation of a new installation, of one condition without hold time. */
  function FirstEvaluation(cond: Condition, now: Time, debounce: int, notifier: bool): Event {
    var k := KeyOf(cond.rule, cond.target);
    Evaluate(Env(now, debounce, map[k := cond], {k}, notifier, map[]), [Look(k)])
  }

  lemma FirstEvaluationFires(cond: Condition, now: Time, debounce: int, notifier: bool)
    requires cond.holdFor <= 0
    ensures var e := FirstEvaluation(cond, now, debounce, notifier);
      Feasible([e]) && Run([e]).log == [NewRow(1, cond, Unix(now))] && FiringIds(Run([e])) == {1}
      && Run([e]).rows == map[1 := NewRow(1, cond, Unix(now))]
  {
    var e, k := FirstEvaluation(cond, now, debounce, notifier), KeyOf(cond.rule, cond.target);
    OneLook(Initial, e.env, k);
    assert [e][..0] == [] && Run([]) == Initial;
    var s' := Initial.(tracks := map[k := FreshTrack.(
      targetName := cond.targetName, severity := cond.severity, pendingSince := Some(now))]);
    assert Visit(Initial, e.env, k) == Fire(s', e.env, k, cond, s'.tracks[k]);
    assert Run([e]).rows == map[1 := NewRow(1, cond, Unix(now))];
  }

  lemma OneLook(s: Sys, env: Env, k: Key)
    ensures Process(s, env, [Look(k)]) == Visit(s, env, k) && Looked([Look(k)]) == [k]
  {
    assert [Look(k)][..0] == [];
  }

  lemma AnyoneMayCrash(s: Sys)
    ensures Possible(s, CrashIdle)
  {}

  /** A load that shows the table from before that evaluation, and arrives after its message, hides the alert:
      the one firing row of a feasible run is not in the list. */
  lemma LateLoadHidesAnAlert(cond: Condition, now: Time, debounce: int, notifier: bool, state: State)
    requires cond.holdFor <= 0
    ensures var e := FirstEvaluation(cond, now, debounce, notifier);
      && Feasible([e]) && FiringIds(Run([])) == {} && FiringIds(Run([e])) == {1} && |Run([e]).log| == 1
      && ReduceAll(state, [Live(AlertMessage(Run([e]).log[0])), Loaded(Overview([]))]).overview == Some(Overview([]))
  {
    FirstEvaluationFires(cond, now, debounce, notifier);
    var actions := [Live(AlertMessage(Run([FirstEvaluation(cond, now, debounce, notifier)]).log[0])),
                    Loaded(Overview([]))];
    assert actions[..1] == [actions[0]] && actions[..1][..0] == [];
  }
}
