/** Memory agrees with the table in every reachable state: any interleaving of evaluations, store
    failures, crashes, restarts, pruning, acknowledgements and deliveries. */
module AlertSafety {
  import opened Common
  import opened AlertKeys
  import opened AlertModel

  /** The tracks with an alert id are exactly the firing rows, one a key. */
  ghost predicate Agrees(s: Sys) {
    && (forall k | k in s.tracks && s.tracks[k].alertID != 0 ::
          s.tracks[k].alertID in s.rows && s.rows[s.tracks[k].alertID].state.Firing?
          && RowKey(s.rows[s.tracks[k].alertID]) == k)
    && (forall id | id in s.rows && s.rows[id].state.Firing? ::
          RowKey(s.rows[id]) in s.tracks && s.tracks[RowKey(s.rows[id])].alertID == id)
  }

  /** Row ids are positive, below nextID (AUTOINCREMENT never reuses one) and stored in their row. */
  ghost predicate ValidRows(s: Sys) {
    s.nextID > 0 && forall id | id in s.rows :: 0 < id < s.nextID && s.rows[id].id == id
  }

  /** A track is either pending or holds an alert; lastTransition is set in the second case only. */
  ghost predicate ValidTrack(tr: TrackValue) {
    && (tr.alertID == 0 <==> tr.lastTransition.None?)
    && (tr.alertID == 0 <==> tr.pendingSince.Some?)
    && (tr.alertID == 0 ==> tr.clearSince.None?)
    && tr.alertID >= 0
  }

  /** Every row's two notifications are posted at most once each, firing before resolved. */
  ghost predicate PostedInOrder(posts: seq<Post>) {
    && NoDup(posts)
    && forall i, j | 0 <= i < j < |posts| && posts[i].row == posts[j].row ::
         posts[i].state.Firing? && posts[j].state.Resolved?
  }

  /** Posts speak of ids already given out, and a resolved post of a row no longer firing. */
  ghost predicate PostsMatchRows(s: Sys) {
    forall p | p in s.posts ::
      p.row < s.nextID
      && (p.state.Resolved? ==> !(p.row in s.rows && s.rows[p.row].state.Firing?))
  }

  ghost predicate Inv(s: Sys) {
    && Agrees(s)
    && ValidRows(s)
    && (forall k | k in s.tracks :: ValidTrack(s.tracks[k]))
    && PostedInOrder(s.posts)
    && PostsMatchRows(s)
    && |s.queue| <= QUEUE_CAPACITY
  }

  lemma InvOneFiring(s: Sys)
    requires Agrees(s)
    ensures OneFiring(s.rows)
  {}

  const Initial: Sys := Sys(map[], [], map[], 1, [], [])

  datatype Event =
    | Evaluate(env: Env, script: seq<Act>)
      // Evaluate cut short after `script`, possibly inside one more visit, then Restart
    | CrashInEvaluate(env: Env, script: seq<Act>, half: Option<(Key, Cut)>)
    | CrashIdle
    | Between(e: SideEvent)

  /** Go's two loops visit the active and the tracked keys once each; an interrupted one visits fewer. */
  ghost predicate Possible(s: Sys, e: Event) {
    match e
    case Evaluate(env, script) =>
      ValidEnv(env) && Lists(Looked(script), env.active.Keys + s.tracks.Keys)
    case CrashInEvaluate(env, script, half) =>
      ValidEnv(env) && NoDup(Looked(script)) && (half.Some? ==> half.value.0 !in Looked(script))
    case _ => true
  }

  function Interrupted(s: Sys, env: Env, script: seq<Act>, half: Option<(Key, Cut)>): Sys {
    var s' := Process(s, env, script);
    if half.Some? then Half(s', env, half.value.0, half.value.1) else s'
  }

  /** The state after an event. */
  ghost function After(s: Sys, e: Event): Sys {
    match e
    case Evaluate(env, script) => Process(s, env, script)
    case CrashInEvaluate(env, script, half) => Restart(Interrupted(s, env, script, half))
    case CrashIdle => Restart(s)
    case Between(e) => AfterSide(s, e)
  }

  ghost function Run(events: seq<Event>): Sys {
    if events == [] then Initial else After(Run(events[..|events| - 1]), events[|events| - 1])
  }

  ghost predicate Feasible(events: seq<Event>) {
    forall i | 0 <= i < |events| :: Possible(Run(events[..i]), events[i])
  }

  lemma PostFiring(posts: seq<Post>, id: int)
    requires PostedInOrder(posts) && forall p | p in posts :: p.row < id
    ensures PostedInOrder(posts + [Post(id, Firing)])
  {}

  lemma PostResolved(posts: seq<Post>, id: int)
    requires PostedInOrder(posts) && Post(id, Resolved) !in posts
    ensures PostedInOrder(posts + [Post(id, Resolved)])
  {
    forall p | p in posts && p.row == id ensures p.state.Firing? {
      match p.state { case Firing => case Resolved => assert false; }
    }
  }

  /** Pruning, acknowledging and marking change no row's key, id or firing state. */
  ghost predicate SameFiring(rows: map<int, AlertRow>, rows': map<int, AlertRow>) {
    && (forall id | id in rows' ::
          id in rows && rows'[id].id == rows[id].id && RowKey(rows'[id]) == RowKey(rows[id])
          && rows'[id].state == rows[id].state)
    && (forall id | id in rows && rows[id].state.Firing? :: id in rows')
  }

  lemma SideSameFiring(s: Sys, e: SideEvent)
    ensures SameFiring(s.rows, AfterSide(s, e).rows)
  {}

  /** Side events touch rows and queue only, and of these nothing the engine relies on. */
  ghost predicate Undisturbed(s: Sys, t: Sys) {
    && t == s.(rows := t.rows, queue := t.queue)
    && SameFiring(s.rows, t.rows) && |t.queue| <= |s.queue|
  }

  lemma SameFiringTransitive(a: map<int, AlertRow>, b: map<int, AlertRow>, c: map<int, AlertRow>)
    requires SameFiring(a, b) && SameFiring(b, c)
    ensures SameFiring(a, c)
  {}

  lemma {:induction false} SidesDisturbNothing(s: Sys, es: seq<SideEvent>)
    ensures Undisturbed(s, AfterSides(s, es))
  {
    if es != [] {
      var t := AfterSides(s, es[..|es| - 1]);
      SidesDisturbNothing(s, es[..|es| - 1]);
      SideSameFiring(t, es[|es| - 1]);
      SameFiringTransitive(s.rows, t.rows, AfterSides(s, es).rows);
    }
  }

  lemma UndisturbedKeepsInv(s: Sys, t: Sys)
    requires Inv(s) && Undisturbed(s, t)
    ensures Inv(t)
  {
    assert Agrees(t);
  }

  lemma SideKeepsInv(s: Sys, e: SideEvent)
    requires Inv(s)
    ensures Inv(AfterSide(s, e))
  {
    SideSameFiring(s, e);
    UndisturbedKeepsInv(s, AfterSide(s, e));
  }

  // The three things a visit can do to its key, each with its part of the invariant.

  function HeldID(tracks: map<Key, TrackValue>, k: Key): int { if k in tracks then tracks[k].alertID else 0 }

  /** Only the track of `k` differs, it is valid if there is one, and it holds alert `id`. */
  ghost predicate OnlyTrack(s: Sys, t: Sys, k: Key, id: int) {
    && (forall k' | k' in t.tracks && k' != k :: k' in s.tracks && t.tracks[k'] == s.tracks[k'])
    && (forall k' | k' in s.tracks && k' != k :: k' in t.tracks)
    && (k in t.tracks ==> ValidTrack(t.tracks[k]))
    && HeldID(t.tracks, k) == id
  }

  /** The store was not asked, or refused. */
  ghost predicate Waited(s: Sys, t: Sys, k: Key) {
    OnlyTrack(s, t, k, HeldID(s.tracks, k)) && t == s.(tracks := t.tracks)
  }

  ghost predicate Opened(s: Sys, t: Sys, k: Key, row: AlertRow) {
    && OnlyTrack(s, t, k, s.nextID) && HeldID(s.tracks, k) == 0
    && row.id == s.nextID && row.state.Firing? && RowKey(row) == k
    && SameFiring(s.rows[s.nextID := row], t.rows) && t.nextID == s.nextID + 1
    && t.log == s.log + [row] && t.posts == s.posts + [Post(s.nextID, Firing)]
    && |t.queue| <= QUEUE_CAPACITY
  }

  ghost predicate Closed(s: Sys, t: Sys, k: Key, at: int) {
    var id := HeldID(s.tracks, k);
    && OnlyTrack(s, t, k, 0) && id != 0
    && SameFiring(ResolveRow(s.rows, id, at), t.rows) && t.nextID == s.nextID
    && |t.log| == |s.log| + 1 && t.log[..|s.log|] == s.log
    && t.log[|s.log|].id == id && t.log[|s.log|].state.Resolved?
    && t.posts == s.posts + [Post(id, Resolved)]
    && |t.queue| <= QUEUE_CAPACITY
  }

  lemma FireOpens(s: Sys, env: Env, k: Key, cond: Condition, tr: TrackValue)
    requires |s.queue| <= QUEUE_CAPACITY && s.nextID > 0
    requires k in env.ok && KeyOf(cond.rule, cond.target) == k && HeldID(s.tracks, k) == 0 && tr.clearSince.None?
    ensures Opened(s, Fire(s, env, k, cond, tr), k, NewRow(s.nextID, cond, Unix(env.now)))
  {
    var row := NewRow(s.nextID, cond, Unix(env.now));
    SidesDisturbNothing(s.(rows := s.rows[s.nextID := row], nextID := s.nextID + 1), Amid(env, k));
  }

  lemma ResolveCloses(s: Sys, env: Env, k: Key, tr: TrackValue)
    requires |s.queue| <= QUEUE_CAPACITY
    requires k in env.ok && k in s.tracks && s.tracks[k].alertID == tr.alertID != 0
    ensures Closed(s, Resolve(s, env, k, tr), k, Unix(env.now))
  {
    SidesDisturbNothing(s.(rows := ResolveRow(s.rows, tr.alertID, Unix(env.now))), Amid(env, k));
  }

  /** A visit is one of the three. */
  ghost predicate Visited(s: Sys, t: Sys, env: Env, k: Key) {
    || Waited(s, t, k)
    || (k in env.active && Opened(s, t, k, NewRow(s.nextID, env.active[k], Unix(env.now))))
    || (k !in env.active && Closed(s, t, k, Unix(env.now)))
  }

  lemma VisitActiveShape(s: Sys, env: Env, k: Key)
    requires Inv(s) && ValidEnv(env) && k in env.active
    ensures Visited(s, VisitActive(s, env, k), env, k)
  {
    var cond := env.active[k];
    var t := VisitActive(s, env, k);
    if k in s.tracks { assert ValidTrack(s.tracks[k]); }
    if t.posts == s.posts {
      WaitingActive(s, env, k);
    } else {
      var tr := (if k in s.tracks then s.tracks[k] else FreshTrack).(
        clearSince := None, targetName := cond.targetName, severity := cond.severity);
      var tr' := tr.(pendingSince := if tr.pendingSince.None? then Some(env.now) else tr.pendingSince);
      var s' := s.(tracks := s.tracks[k := tr']);
      assert t == Fire(s', env, k, cond, tr');
      FireOpens(s', env, k, cond, tr');
      assert OnlyTrack(s, t, k, s.nextID);
    }
  }

  lemma WaitingActive(s: Sys, env: Env, k: Key)
    requires k in env.active && (k in s.tracks ==> ValidTrack(s.tracks[k]))
    requires VisitActive(s, env, k).posts == s.posts
    ensures Waited(s, VisitActive(s, env, k), k)
  {}

  lemma WaitingQuiet(s: Sys, env: Env, k: Key)
    requires k in s.tracks && ValidTrack(s.tracks[k]) && VisitQuiet(s, env, k).posts == s.posts
    ensures Waited(s, VisitQuiet(s, env, k), k)
  {}

  lemma ResolvingQuiet(s: Sys, env: Env, k: Key)
    requires |s.queue| <= QUEUE_CAPACITY && k in s.tracks
    requires VisitQuiet(s, env, k).posts != s.posts
    ensures Closed(s, VisitQuiet(s, env, k), k, Unix(env.now))
  {
    var tr := s.tracks[k].(pendingSince := None);
    var tr' := tr.(clearSince := if tr.clearSince.None? then Some(env.now) else tr.clearSince);
    var s' := s.(tracks := s.tracks[k := tr']);
    assert VisitQuiet(s, env, k) == Resolve(s', env, k, tr');
    ResolveCloses(s', env, k, tr');
    assert OnlyTrack(s, VisitQuiet(s, env, k), k, 0);
  }

  lemma VisitQuietShape(s: Sys, env: Env, k: Key)
    requires Inv(s) && k in s.tracks && k !in env.active
    ensures Visited(s, VisitQuiet(s, env, k), env, k)
  {
    assert ValidTrack(s.tracks[k]);
    if VisitQuiet(s, env, k).posts == s.posts {
      WaitingQuiet(s, env, k);
    } else {
      ResolvingQuiet(s, env, k);
    }
  }

  lemma {:induction false} VisitShape(s: Sys, env: Env, k: Key)
    requires Inv(s) && ValidEnv(env)
    ensures Visited(s, Visit(s, env, k), env, k)
  {
    if k in env.active {
      VisitActiveShape(s, env, k);
    } else if k in s.tracks {
      VisitQuietShape(s, env, k);
    } else {
      assert Waited(s, s, k);
    }
  }

  lemma WaitedKeepsInv(s: Sys, t: Sys, k: Key)
    requires Inv(s) && Waited(s, t, k)
    ensures Inv(t)
  {
    assert Agrees(t);
  }

  lemma OpenedAgrees(s: Sys, t: Sys, k: Key, row: AlertRow)
    requires Agrees(s) && ValidRows(s) && Opened(s, t, k, row)
    ensures Agrees(t)
  {
    forall k' | k' in t.tracks && t.tracks[k'].alertID != 0
      ensures t.tracks[k'].alertID in t.rows && t.rows[t.tracks[k'].alertID].state.Firing?
      ensures RowKey(t.rows[t.tracks[k'].alertID]) == k'
    {
      if k' != k { assert s.tracks[k'].alertID in s.rows; }
    }
    forall id | id in t.rows && t.rows[id].state.Firing?
      ensures RowKey(t.rows[id]) in t.tracks && t.tracks[RowKey(t.rows[id])].alertID == id
    {
      if id != s.nextID { assert id in s.rows && RowKey(s.rows[id]) in s.tracks; }
    }
  }

  lemma OpenedKeepsRest(s: Sys, t: Sys, k: Key, row: AlertRow)
    requires ValidRows(s) && PostsMatchRows(s) && PostedInOrder(s.posts) && Opened(s, t, k, row)
    ensures ValidRows(t) && PostsMatchRows(t) && PostedInOrder(t.posts)
  {
    PostFiring(s.posts, s.nextID);
    forall p | p in t.posts ensures p.row < t.nextID
      ensures p.state.Resolved? ==> !(p.row in t.rows && t.rows[p.row].state.Firing?)
    {
      assert p in s.posts || p == Post(s.nextID, Firing);
    }
  }

  lemma ClosedAgrees(s: Sys, t: Sys, k: Key, at: int)
    requires Agrees(s) && Closed(s, t, k, at)
    ensures Agrees(t)
  {
    var gone := HeldID(s.tracks, k);
    forall k' | k' in t.tracks && t.tracks[k'].alertID != 0
      ensures t.tracks[k'].alertID in t.rows && t.rows[t.tracks[k'].alertID].state.Firing?
      ensures RowKey(t.rows[t.tracks[k'].alertID]) == k'
    {
      assert k' != k && s.tracks[k'].alertID in s.rows;
    }
    forall id | id in t.rows && t.rows[id].state.Firing?
      ensures RowKey(t.rows[id]) in t.tracks && t.tracks[RowKey(t.rows[id])].alertID == id
    {
      assert id != gone && RowKey(s.rows[id]) in s.tracks;
    }
  }

  lemma ClosedKeepsRest(s: Sys, t: Sys, k: Key, at: int)
    requires Agrees(s) && ValidRows(s) && PostsMatchRows(s) && PostedInOrder(s.posts) && Closed(s, t, k, at)
    ensures ValidRows(t) && PostsMatchRows(t) && PostedInOrder(t.posts)
  {
    var gone := HeldID(s.tracks, k);
    assert gone in s.rows && s.rows[gone].state.Firing?;
    PostResolved(s.posts, gone);
    forall p | p in t.posts ensures p.row < t.nextID
      ensures p.state.Resolved? ==> !(p.row in t.rows && t.rows[p.row].state.Firing?)
    {
      assert p in s.posts || p == Post(gone, Resolved);
    }
  }

  lemma VisitedKeepsInv(s: Sys, t: Sys, env: Env, k: Key)
    requires Inv(s) && Visited(s, t, env, k)
    ensures Inv(t)
  {
    if Waited(s, t, k) {
      WaitedKeepsInv(s, t, k);
    } else if k in env.active {
      var row := NewRow(s.nextID, env.active[k], Unix(env.now));
      OpenedAgrees(s, t, k, row);
      OpenedKeepsRest(s, t, k, row);
    } else {
      ClosedAgrees(s, t, k, Unix(env.now));
      ClosedKeepsRest(s, t, k, Unix(env.now));
    }
  }

  lemma {:induction false} VisitKeepsInv(s: Sys, env: Env, k: Key)
    requires Inv(s) && ValidEnv(env)
    ensures Inv(Visit(s, env, k))
  {
    VisitShape(s, env, k);
    VisitedKeepsInv(s, Visit(s, env, k), env, k);
  }

  lemma {:induction false} ProcessKeepsInv(s: Sys, env: Env, script: seq<Act>)
    requires Inv(s) && ValidEnv(env)
    ensures Inv(Process(s, env, script))
  {
    if script != [] {
      var front, last := script[..|script| - 1], script[|script| - 1];
      ProcessKeepsInv(s, env, front);
      match last
      case Look(k) => VisitKeepsInv(Process(s, env, front), env, k);
      case Side(e) => SideKeepsInv(Process(s, env, front), e);
    }
  }

  /** What a crash leaves behind is fit to be restored. */
  ghost predicate Durable(s: Sys) {
    && OneFiring(s.rows) && ValidRows(s) && PostedInOrder(s.posts) && PostsMatchRows(s)
  }

  lemma RestartKeepsInv(s: Sys)
    requires Durable(s)
    ensures Inv(Restart(s))
  {
    var t := Restart(s);
    forall k | k in t.tracks
      ensures ValidTrack(t.tracks[k])
      ensures t.tracks[k].alertID in t.rows && t.rows[t.tracks[k].alertID].state.Firing?
      ensures RowKey(t.rows[t.tracks[k].alertID]) == k
    {
      assert t.tracks[k] == RestoredTrack(s.rows[FiringRowOf(s.rows, k)]);
    }
  }

  /** Between the store write of a visit and the rest of it, the table is already as after the visit. */
  lemma HalfIsDurable(s: Sys, env: Env, k: Key, cut: Cut)
    requires Inv(s) && ValidEnv(env)
    ensures Durable(Half(s, env, k, cut))
  {
    var full := Visit(s, env, k);
    VisitShape(s, env, k);
    VisitedKeepsInv(s, full, env, k);
    InvOneFiring(full);
    PostsGrow(s, full, env, k);
    forall p | p in s.posts ensures p in full.posts {}
  }

  lemma PostsGrow(s: Sys, t: Sys, env: Env, k: Key)
    requires Visited(s, t, env, k)
    ensures s.posts <= t.posts
  {}

  lemma AfterKeepsInv(s: Sys, e: Event)
    requires Inv(s) && Possible(s, e)
    ensures Inv(After(s, e))
  {
    match e
    case Evaluate(env, script) =>
      ProcessKeepsInv(s, env, script);
    case CrashInEvaluate(env, script, half) =>
      ProcessKeepsInv(s, env, script);
      InvOneFiring(Process(s, env, script));
      if half.Some? {
        HalfIsDurable(Process(s, env, script), env, half.value.0, half.value.1);
      }
      RestartKeepsInv(Interrupted(s, env, script, half));
    case CrashIdle =>
      InvOneFiring(s);
      RestartKeepsInv(s);
    case Between(e) =>
      SideKeepsInv(s, e);
  }

  /** Every reachable state satisfies the invariant. */
  lemma {:induction false} Safety(events: seq<Event>)
    requires Feasible(events)
    ensures Inv(Run(events))
  {
    if events != [] {
      var before := events[..|events| - 1];
      assert forall i | 0 <= i < |before| :: before[..i] == events[..i] && before[i] == events[i];
      Safety(before);
      assert events[..|events| - 1] == before;
      AfterKeepsInv(Run(before), events[|events| - 1]);
    }
  }

  /** In every reachable state a rule and target have at most one firing row, and the tracks holding an
      alert id are exactly the firing rows. */
  lemma {:induction false} FiringRowsAreTheAlertTracks(events: seq<Event>)
    requires Feasible(events)
    ensures var s := Run(events);
      && (forall i, j | i in s.rows && j in s.rows && s.rows[i].state.Firing? && s.rows[j].state.Firing?
            && s.rows[i].rule == s.rows[j].rule && s.rows[i].target == s.rows[j].target :: i == j)
      && (set k | k in s.tracks && s.tracks[k].alertID > 0 :: (k, s.tracks[k].alertID))
         == (set id | id in s.rows && s.rows[id].state.Firing? :: (RowKey(s.rows[id]), id))
  {
    Safety(events);
    var s := Run(events);
    InvOneFiring(s);
    forall k | k in s.tracks && s.tracks[k].alertID > 0
      ensures (k, s.tracks[k].alertID)
           in (set id | id in s.rows && s.rows[id].state.Firing? :: (RowKey(s.rows[id]), id))
    {}
    forall id | id in s.rows && s.rows[id].state.Firing?
      ensures (RowKey(s.rows[id]), id) in (set k | k in s.tracks && s.tracks[k].alertID > 0 :: (k, s.tracks[k].alertID))
    {}
  }

  /** Over any run a row's firing and resolved notifications are each enqueued at most once, firing
      first, and the queue stays within its capacity. */
  lemma {:induction false} NotifiedAtMostOnce(events: seq<Event>)
    requires Feasible(events)
    ensures var s := Run(events);
      && (forall i, j | 0 <= i < j < |s.posts| && s.posts[i].row == s.posts[j].row ::
            s.posts[i].state.Firing? && s.posts[j].state.Resolved?)
      && |s.queue| <= QUEUE_CAPACITY
  {
    Safety(events);
  }
}
