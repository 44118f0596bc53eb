/** The alert engine and its table as values, one visit of one key at a time. */
module AlertModel {
  import opened Common
  import opened AlertKeys

  datatype Condition = Condition(
    rule: string, target: string, targetName: string, severity: string, message: string, holdFor: int)

  datatype AlertState = Firing | Resolved

  /** A row of the alerts table, and also the payload of an `alert` message. */
  datatype AlertRow = AlertRow(
    id: int, rule: string, target: string, targetName: string, severity: string, message: string,
    state: AlertState, firedAt: int, resolvedAt: int, notifiedAt: int, ackedAt: int)

  datatype TrackValue = TrackValue(
    pendingSince: Option<Time>, clearSince: Option<Time>, alertID: int, lastTransition: Option<Time>,
    message: string, targetName: string, severity: string)

  const FreshTrack: TrackValue := TrackValue(None, None, 0, None, "", "", "")

  /** The arguments `format` turns into text; the text itself is not modelled. */
  datatype Text = Text(
    state: AlertState, severity: string, rule: string, targetName: string, message: string, at: Time)

  datatype Notification = Notification(text: Text, alertID: int)

  /** History entry: the row an enqueued notification speaks of, and which of its two transitions. */
  datatype Post = Post(row: int, state: AlertState)

  const QUEUE_CAPACITY := 256

  /** Process memory (tracks, queue), the durable table (rows, nextID) and two histories
      (log: the published alert messages, posts: the enqueue calls). */
  datatype Sys = Sys(
    tracks: map<Key, TrackValue>, queue: seq<Notification>,
    rows: map<int, AlertRow>, nextID: int,
    log: seq<AlertRow>, posts: seq<Post>)

  /** What one Evaluate call works with. `ok` holds the keys whose store call succeeds this time, `amid` what
      other goroutines do between such a call and the rest of its visit: the table is not locked. */
  datatype Env = Env(now: Time, debounce: int, active: map<Key, Condition>, ok: set<Key>, notifier: bool,
                     amid: map<Key, seq<SideEvent>>)

  ghost predicate ValidEnv(env: Env) {
    forall k | k in env.active :: KeyOf(env.active[k].rule, env.active[k].target) == k
  }

  function RowKey(r: AlertRow): Key { KeyOf(r.rule, r.target) }

  // The statements of internal/store/records.go on the table.

  function NewRow(id: int, cond: Condition, firedAt: int): AlertRow {
    AlertRow(id, cond.rule, cond.target, cond.targetName, cond.severity, cond.message, Firing, firedAt, 0, 0, 0)
  }

  function ResolveRow(rows: map<int, AlertRow>, id: int, at: int): map<int, AlertRow> {
    if id in rows && rows[id].state.Firing? then rows[id := rows[id].(state := Resolved, resolvedAt := at)] else rows
  }

  function AckRow(rows: map<int, AlertRow>, id: int, at: int): map<int, AlertRow> {
    if id in rows && rows[id].ackedAt == 0 then rows[id := rows[id].(ackedAt := at)] else rows
  }

  function NotifiedRow(rows: map<int, AlertRow>, id: int, at: int): map<int, AlertRow> {
    if id in rows then rows[id := rows[id].(notifiedAt := at)] else rows
  }

  /** The pruning Rollup does on this table. */
  function PruneRows(rows: map<int, AlertRow>, cutoff: int): map<int, AlertRow> {
    map id | id in rows && !(rows[id].state.Resolved? && rows[id].resolvedAt < cutoff) :: rows[id]
  }

  /** What other goroutines do to the table and the queue, at any time. */
  datatype SideEvent =
    | Prune(cutoff: int)
    | Ack(id: int, at: int)
    | Notified(id: int, at: int)
    | Take  // the consumer takes the oldest notification

  function AfterSide(s: Sys, e: SideEvent): Sys {
    match e
    case Prune(cutoff) => s.(rows := PruneRows(s.rows, cutoff))
    case Ack(id, at) => s.(rows := AckRow(s.rows, id, at))
    case Notified(id, at) => s.(rows := NotifiedRow(s.rows, id, at))
    case Take => if s.queue == [] then s else s.(queue := s.queue[1..])
  }

  function AfterSides(s: Sys, es: seq<SideEvent>): Sys {
    if es == [] then s else AfterSide(AfterSides(s, es[..|es| - 1]), es[|es| - 1])
  }

  // The engine's steps.

  function Enqueued(queue: seq<Notification>, n: Notification, notifier: bool): seq<Notification> {
    if notifier && |queue| < QUEUE_CAPACITY then queue + [n] else queue
  }

  function ResolvedMessage(k: Key, tr: TrackValue, at: int): AlertRow {
    AlertRow(tr.alertID, RuleOf(k), "", tr.targetName, tr.severity, tr.message, Resolved, 0, at, 0, 0)
  }

  /** What happens while the visit of `k` returns from the store. */
  function Amid(env: Env, k: Key): seq<SideEvent> { if k in env.amid then env.amid[k] else [] }

  /** fire, on a track already stored under `k`: the row, whatever others do meanwhile, and then memory,
      message and notification. */
  function Fire(s: Sys, env: Env, k: Key, cond: Condition, tr: TrackValue): Sys {
    if k !in env.ok then s else
      var row := NewRow(s.nextID, cond, Unix(env.now));
      var stored := AfterSides(s.(rows := s.rows[s.nextID := row], nextID := s.nextID + 1), Amid(env, k));
      var tr' := tr.(
        alertID := s.nextID, lastTransition := Some(env.now), message := cond.message, pendingSince := None);
      var text := Text(Firing, cond.severity, cond.rule, cond.targetName, cond.message, env.now);
      stored.(tracks := s.tracks[k := tr'],
              queue := Enqueued(stored.queue, Notification(text, s.nextID), env.notifier),
              log := s.log + [row], posts := s.posts + [Post(s.nextID, Firing)])
  }

  /** resolve, on the track stored under `k`. */
  function Resolve(s: Sys, env: Env, k: Key, tr: TrackValue): Sys {
    if k !in env.ok then s else
      var stored := AfterSides(s.(rows := ResolveRow(s.rows, tr.alertID, Unix(env.now))), Amid(env, k));
      var note := Notification(Text(Resolved, tr.severity, RuleOf(k), tr.targetName, tr.message, env.now), 0);
      stored.(tracks := s.tracks - {k}, queue := Enqueued(stored.queue, note, env.notifier),
              log := s.log + [ResolvedMessage(k, tr, Unix(env.now))],
              posts := s.posts + [Post(tr.alertID, Resolved)])
  }

  /** The body of Evaluate's first loop, for an active key. */
  function VisitActive(s: Sys, env: Env, k: Key): Sys
    requires k in env.active
  {
    var cond := env.active[k];
    var tr := (if k in s.tracks then s.tracks[k] else FreshTrack).(
      clearSince := None, targetName := cond.targetName, severity := cond.severity);
    if tr.alertID > 0 then
      s.(tracks := s.tracks[k := tr.(message := cond.message)])
    else
      var since := if tr.pendingSince.None? then env.now else tr.pendingSince.value;
      var tr' := tr.(pendingSince := Some(since));
      var s' := s.(tracks := s.tracks[k := tr']);
      if env.now - since < cond.holdFor then s'
      else if tr'.lastTransition.Some? && env.now - tr'.lastTransition.value < env.debounce then s'
      else Fire(s', env, k, cond, tr')
  }

  /** The body of Evaluate's second loop, for a tracked key that is no longer active. */
  function VisitQuiet(s: Sys, env: Env, k: Key): Sys
    requires k in s.tracks
  {
    var tr := s.tracks[k].(pendingSince := None);
    if tr.alertID == 0 then
      s.(tracks := s.tracks - {k})
    else
      var since := if tr.clearSince.None? then env.now else tr.clearSince.value;
      var tr' := tr.(clearSince := Some(since));
      var s' := s.(tracks := s.tracks[k := tr']);
      if env.now - since < env.debounce then s' else Resolve(s', env, k, tr')
  }

  function Visit(s: Sys, env: Env, k: Key): Sys {
    if k in env.active then VisitActive(s, env, k)
    else if k in s.tracks then VisitQuiet(s, env, k)
    else s
  }

  /** A script tells what happens while Evaluate runs: visits of keys, with more side events in between. */
  datatype Act = Look(k: Key) | Side(e: SideEvent)

  function AfterAct(s: Sys, env: Env, a: Act): Sys {
    match a
    case Look(k) => Visit(s, env, k)
    case Side(e) => AfterSide(s, e)
  }

  function Process(s: Sys, env: Env, script: seq<Act>): Sys {
    if script == [] then s else
      AfterAct(Process(s, env, script[..|script| - 1]), env, script[|script| - 1])
  }

  /** The keys a script visits, in order. */
  function Looked(script: seq<Act>): seq<Key> {
    if script == [] then [] else
      var front, last := Looked(script[..|script| - 1]), script[|script| - 1];
      if last.Look? then front + [last.k] else front
  }

  // Crashes and restarts.

  /** At most one firing row a key, so a map from keys to firing rows exists. */
  ghost predicate OneFiring(rows: map<int, AlertRow>) {
    forall i, j | i in rows && j in rows && rows[i].state.Firing? && rows[j].state.Firing? ::
      RowKey(rows[i]) == RowKey(rows[j]) ==> i == j
  }

  function RestoredTrack(r: AlertRow): TrackValue {
    TrackValue(None, None, r.id, Some(r.firedAt * SECOND), r.message, r.targetName, r.severity)
  }

  ghost function FiringKeysOf(rows: map<int, AlertRow>): set<Key> {
    set id | id in rows && rows[id].state.Firing? :: RowKey(rows[id])
  }

  /** A firing row of the key; the only one where OneFiring holds. */
  ghost function FiringRowOf(rows: map<int, AlertRow>, k: Key): (id: int)
    requires k in FiringKeysOf(rows)
    ensures id in rows && rows[id].state.Firing? && RowKey(rows[id]) == k
  {
    var id :| id in rows && rows[id].state.Firing? && RowKey(rows[id]) == k;
    id
  }

  /** What Restore builds from the table. */
  ghost function RestoredTracks(rows: map<int, AlertRow>): map<Key, TrackValue> {
    map k | k in FiringKeysOf(rows) :: RestoredTrack(rows[FiringRowOf(rows, k)])
  }

  /** The process dies and a new one restores: memory is lost, table and histories stay. */
  ghost function Restart(s: Sys): Sys {
    s.(tracks := RestoredTracks(s.rows), queue := [])
  }

  /** How far an interrupted visit got: its store write only, or also its bus message. What others did in the
      meantime is in `amid`. */
  datatype Cut = Stored | Published

  function Half(s: Sys, env: Env, k: Key, cut: Cut): Sys {
    var full := Visit(s, env, k);
    var stored := s.(rows := full.rows, nextID := full.nextID);
    if cut.Published? then stored.(log := full.log) else stored
  }
}
