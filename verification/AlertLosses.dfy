/** Notifications do get lost: to a crash, and to a full queue. */
module AlertLosses {
  import opened Common
  import opened AlertKeys
  import opened AlertModel
  import opened AlertSafety
  import opened AlertReplay
  import opened Mailbox
  import opened AlertDelivery

  lemma {:induction false} RunsFromTheStart(events: seq<Event>)
    ensures Run(events) == RunFrom(Initial, events)
  {
    if events != [] { RunsFromTheStart(events[..|events| - 1]); }
  }

  lemma FeasibleFromTheStart(events: seq<Event>)
    ensures Feasible(events) <==> FeasibleFrom(Initial, events)
  {
    forall i | 0 <= i <= |events| ensures Run(events[..i]) == RunFrom(Initial, events[..i]) {
      RunsFromTheStart(events[..i]);
    }
  }

  lemma RunMore(s: Sys, events: seq<Event>, e: Event)
    ensures RunFrom(s, events + [e]) == After(RunFrom(s, events), e)
    ensures Moves(s, events + [e]) == Moves(s, events) + EventMoves(RunFrom(s, events), e)
  {
    assert (events + [e])[..|events|] == events;
  }

  lemma FirstMoves(cond: Condition, now: Time, debounce: int) returns (note: Notification)
    requires cond.holdFor <= 0
    ensures Moves(Initial, [FirstEvaluation(cond, now, debounce, true)]) == [Sent(Mail(Post(1, Firing), note), true)]
  {
    var e, k := FirstEvaluation(cond, now, debounce, true), KeyOf(cond.rule, cond.target);
    note := NoteOf(Initial, e.env, k);
    OneEvent(Initial, e);
    OneLook(Initial, e.env, k);
    assert [Look(k)][..0] == [];
    FirstTurns(e.env, k, cond);
    assert ScriptMoves(Initial, e.env, [Look(k)]) == [] + VisitMoves(Initial, e.env, k);
  }

  lemma FirstTurns(env: Env, k: Key, cond: Condition)
    requires k in env.active && env.active[k] == cond && k in env.ok && cond.holdFor <= 0
    ensures Turns(Initial, env, k)
  {}

  lemma CrashedBooks(mail: Mail)
    ensures BooksOf([Sent(mail, true), Lost]) == Books([], [], [], [mail], [])
  {
    var moves := [Sent(mail, true), Lost];
    assert moves[..1] == [moves[0]] && moves[..1][..0] == [];
    assert BooksOf(moves[..1]) == Books([mail], [], [], [], []);
  }

  lemma StartIsRight()
    ensures Inv(Initial)
  {}

  /** The state after a new installation has opened its first alert and crashed. */
  lemma FirstThenCrash(cond: Condition, now: Time, debounce: int)
    requires cond.holdFor <= 0
    ensures var events := [FirstEvaluation(cond, now, debounce, true), CrashIdle];
      Feasible(events) && FiringIds(Run(events)) == {1} && Run(events).queue == []
      && Run(events).posts == Run(events[..1]).posts
  {
    var e := FirstEvaluation(cond, now, debounce, true);
    var events := [e, CrashIdle];
    FirstEvaluationFires(cond, now, debounce, true);
    hide Run, Possible;
    assert events[..1] == [e] && events[..0] == [e][..0] == [];
    assert Possible(Run([e][..0]), [e][0]);
    RunsFromTheStart([e]);
    RunsFromTheStart(events);
    RunMore(Initial, [e], CrashIdle);
    assert [e] + [CrashIdle] == events;
    assert Possible(Run(events[..1]), CrashIdle) by { AnyoneMayCrash(Run(events[..1])); }
  }

  /** A new installation opens one alert and crashes before the consumer gets to its notification: the alert still
      fires after the restart, its one transition is among the lost, and nothing waits or was taken. */
  lemma {:induction false} CrashLosesANotification(cond: Condition, now: Time, debounce: int)
    requires cond.holdFor <= 0
    ensures var events := [FirstEvaluation(cond, now, debounce, true), CrashIdle];
      var end, b := Run(events), BooksOf(Moves(Initial, events));
      && Feasible(events) && FiringIds(end) == {1} && end.posts == [Post(1, Firing)] && end.queue == []
      && PostsOf(b.lost) == [Post(1, Firing)] && Told(b) == []
  {
    var e := FirstEvaluation(cond, now, debounce, true);
    var events := [e, CrashIdle];
    FirstThenCrash(cond, now, debounce);
    FirstEvaluationFires(cond, now, debounce, true);
    hide Run, RunFrom, FirstEvaluation, Feasible, FiringIds;
    var note := FirstMoves(cond, now, debounce);
    var sent := Sent(Mail(Post(1, Firing), note), true);
    RunMore(Initial, [e], CrashIdle);
    assert [e] + [CrashIdle] == events && events[..1] == [e];
    assert Moves(Initial, events) == [sent] + [Lost] == [sent, Lost];
    CrashedBooks(sent.mail);
    FeasibleFromTheStart([e]);
    RunsFromTheStart([e]);
    StartIsRight();
    BooksAreRight(Initial, [e]);
    OneMove(sent);
    OneMail(sent.mail);
  }

  // One evaluation that opens one alert more than the queue holds.

  const BURST: nat := QUEUE_CAPACITY + 1

  function BurstTarget(i: nat): string { seq(i, _ => '0') }

  function BurstCondition(i: nat): Condition { Condition("raid_degraded", BurstTarget(i), "", "critical", "", 0) }

  function BurstKey(i: nat): Key { KeyOf("raid_degraded", BurstTarget(i)) }

  lemma BurstKeysDiffer(i: nat, j: nat)
    requires i != j
    ensures BurstKey(i) != BurstKey(j)
  {
    assert |BurstKey(i)| == 14 + i && |BurstKey(j)| == 14 + j;
  }

  function BurstKeys(n: nat): set<Key> { set i: nat | i < n :: BurstKey(i) }

  /** The condition of a key of the burst, told from the key's length. */
  function BurstActive(n: nat): map<Key, Condition> {
    map k | k in BurstKeys(n) :: BurstCondition(if |k| >= 14 then |k| - 14 else 0)
  }

  function BurstEnv(now: Time, debounce: int): Env {
    Env(now, debounce, BurstActive(BURST), BurstKeys(BURST), true, map[])
  }

  function BurstScript(n: nat): seq<Act> { if n == 0 then [] else BurstScript(n - 1) + [Look(BurstKey(n - 1))] }

  function Burst(now: Time, debounce: int): Event { Evaluate(BurstEnv(now, debounce), BurstScript(BURST)) }

  lemma BurstKeyLength(i: nat)
    ensures |BurstKey(i)| == 14 + i
  {}

  lemma BurstConditionOf(n: nat, i: nat)
    requires i < n
    ensures BurstKey(i) in BurstActive(n) && BurstActive(n)[BurstKey(i)] == BurstCondition(i)
  {
    BurstKeyLength(i);
    assert BurstKey(i) in BurstKeys(n);
  }

  lemma ListsOneMore(s: seq<Key>, keys: set<Key>, k: Key)
    requires Lists(s, keys) && k !in keys
    ensures Lists(s + [k], keys + {k})
  {}

  lemma LookedOne(script: seq<Act>, k: Key)
    ensures Looked(script + [Look(k)]) == Looked(script) + [k]
  {
    assert (script + [Look(k)])[..|script|] == script;
  }

  lemma {:induction false} BurstLooks(n: nat)
    ensures Lists(Looked(BurstScript(n)), BurstKeys(n))
  {
    if n > 0 {
      hide BurstKey, BurstKeys, Looked, Lists;
      BurstLooks(n - 1);
      BurstIsNew(n - 1);
      BurstGrows(n - 1);
      LookedOne(BurstScript(n - 1), BurstKey(n - 1));
      ListsOneMore(Looked(BurstScript(n - 1)), BurstKeys(n - 1), BurstKey(n - 1));
    }
  }

  lemma BurstIsPossible(now: Time, debounce: int)
    ensures Possible(Initial, Burst(now, debounce)) && ValidEnv(BurstEnv(now, debounce))
  {
    var env := BurstEnv(now, debounce);
    BurstLooks(BURST);
    forall k | k in env.active ensures KeyOf(env.active[k].rule, env.active[k].target) == k {
      var i: nat :| i < BURST && k == BurstKey(i);
      BurstConditionOf(BURST, i);
    }
    assert env.active.Keys + Initial.tracks.Keys == BurstKeys(BURST);
  }

  /** A key seen for the first time fires at once if its condition needs no hold time. */
  lemma FreshKeyFires(s: Sys, env: Env, k: Key)
    requires k in env.active && env.active[k].holdFor <= 0 && k !in s.tracks && k in env.ok && env.amid == map[]
    ensures var t := Visit(s, env, k);
      && t.tracks.Keys == s.tracks.Keys + {k} && t.posts == s.posts + [PostOf(s, env, k)]
      && t.queue == Enqueued(s.queue, NoteOf(s, env, k), env.notifier)
  {}

  /** All of the first `n` have fired, and nobody has taken anything. */
  ghost predicate BurstSoFar(t: Sys, moves: seq<Move>, n: nat) {
    && t.tracks.Keys == BurstKeys(n) && |t.posts| == n
    && |t.queue| == (if n < QUEUE_CAPACITY then n else QUEUE_CAPACITY)
    && forall m | m in moves :: m.Sent?
  }

  lemma EnqueuedLength(queue: seq<Notification>, n: Notification)
    ensures |Enqueued(queue, n, true)| == if |queue| < QUEUE_CAPACITY then |queue| + 1 else |queue|
  {}

  lemma BurstStep(t: Sys, moves: seq<Move>, now: Time, debounce: int, n: nat)
    requires n < BURST && BurstSoFar(t, moves, n)
    ensures var env, k := BurstEnv(now, debounce), BurstKey(n);
      BurstSoFar(Visit(t, env, k), moves + VisitMoves(t, env, k), n + 1)
  {
    var env, k := BurstEnv(now, debounce), BurstKey(n);
    BurstIsNew(n);
    BurstConditionOf(BURST, n);
    BurstKnows(now, debounce, n);
    hide BurstKey, BurstKeys, BurstActive, Visit, Enqueued;
    FreshKeyFires(t, env, k);
    EnqueuedLength(t.queue, NoteOf(t, env, k));
    assert TakesOf(Amid(env, k)) == [];
  }

  lemma BurstStarts(now: Time, debounce: int)
    ensures var env := BurstEnv(now, debounce); BurstSoFar(Process(Initial, env, []), ScriptMoves(Initial, env, []), 0)
  {
    assert BurstKeys(0) == {};
  }

  lemma {:induction false} BurstFires(now: Time, debounce: int, n: nat)
    requires n <= BURST
    ensures var env := BurstEnv(now, debounce);
      BurstSoFar(Process(Initial, env, BurstScript(n)), ScriptMoves(Initial, env, BurstScript(n)), n)
  {
    hide BurstKey, BurstEnv, BurstSoFar, Visit, VisitMoves, Process, ScriptMoves;
    if n == 0 {
      BurstStarts(now, debounce);
    } else {
      var env, front, k := BurstEnv(now, debounce), BurstScript(n - 1), BurstKey(n - 1);
      BurstFires(now, debounce, n - 1);
      BurstStep(Process(Initial, env, front), ScriptMoves(Initial, env, front), now, debounce, n - 1);
      OneMoreAct(Initial, env, front, Look(k));
    }
  }

  lemma BurstKnows(now: Time, debounce: int, i: nat)
    requires i < BURST
    ensures BurstKey(i) in BurstEnv(now, debounce).ok && BurstKeys(i + 1) == BurstKeys(i) + {BurstKey(i)}
  {
    BurstGrows(i);
  }

  lemma BurstGrows(n: nat)
    ensures BurstKeys(n + 1) == BurstKeys(n) + {BurstKey(n)}
  {
    hide BurstKey;
  }

  lemma BurstIsNew(n: nat)
    ensures BurstKey(n) !in BurstKeys(n)
  {
    hide BurstKey;
    forall i: nat | i < n ensures BurstKey(i) != BurstKey(n) {
      BurstKeysDiffer(i, n);
    }
  }

  lemma {:induction false} NobodyTakes(moves: seq<Move>)
    requires forall m | m in moves :: m.Sent?
    ensures BooksOf(moves).taken == []
  {
    if moves != [] { NobodyTakes(moves[..|moves| - 1]); }
  }

  lemma OneEvent(s: Sys, e: Event)
    ensures RunFrom(s, [e]) == After(s, e) && Moves(s, [e]) == EventMoves(s, e)
    ensures FeasibleFrom(s, [e]) <==> Possible(s, e)
  {
    hide EventMoves, After, Possible;
    RunMore(s, [], e);
    assert [] + [e] == [e] && [e][..0] == [] && [] + EventMoves(s, e) == EventMoves(s, e);
  }

  lemma BurstRuns(now: Time, debounce: int)
    ensures var e := Burst(now, debounce);
      && FeasibleFrom(Initial, [e]) && NoCrash([e])
      && BurstSoFar(RunFrom(Initial, [e]), Moves(Initial, [e]), BURST)
  {
    hide BurstEnv, BurstScript, BurstSoFar, Process, ScriptMoves, RunFrom, Moves, Possible, FeasibleFrom;
    OneEvent(Initial, Burst(now, debounce));
    BurstIsPossible(now, debounce);
    BurstFires(now, debounce, BURST);
  }

  /** A crash-free run with a notifier: 257 alerts open in one evaluation before the consumer takes anything, the table
      shows them all, and one of their notifications is dropped. */
  lemma {:induction false} FullQueueDropsOne(now: Time, debounce: int)
    ensures var events := [Burst(now, debounce)]; var end, b := Run(events), BooksOf(Moves(Initial, events));
      && Feasible(events) && |end.posts| == 257 && |end.queue| == 256 && |b.dropped| == 1 && b.taken == []
  {
    hide Burst, Feasible, FeasibleFrom, RunFrom, Moves, Run, NoCrash, Inv, BooksOf;
    var events := [Burst(now, debounce)];
    BurstRuns(now, debounce);
    StartIsRight();
    RunsFromTheStart(events);
    FeasibleFromTheStart(events);
    CrashFreeRunsTell(Initial, events);
    NobodyTakes(Moves(Initial, events));
  }
}
