/** The engine object: tracks are objects changed in place, the map holds them by key. */
module AlertEngine {
  import opened Common
  import opened AlertKeys
  import opened AlertModel
  import opened AlertSafety
  import opened AlertRules
  import opened AlertStore
  import opened Disks

  class Track {
    ghost const key: Key
    var pendingSince: Option<Time>
    var clearSince: Option<Time>
    var alertID: int
    var lastTransition: Option<Time>
    var message: string
    var targetName: string
    var severity: string

    ghost function Value(): TrackValue
      reads this
    {
      TrackValue(pendingSince, clearSince, alertID, lastTransition, message, targetName, severity)
    }

    constructor (ghost k: Key)
      ensures key == k && Value() == FreshTrack
    {
      key := k;
      pendingSince, clearSince, alertID, lastTransition := None, None, 0, None;
      message, targetName, severity := "", "", "";
    }

    /** What the first loop writes to the track of an active key before it decides whether to fire. */
    method Mark(now: Time, cond: Condition)
      modifies this
      ensures Value() == Marked(old(Value()), now, cond)
    {
      clearSince := None;
      targetName := cond.targetName;
      severity := cond.severity;
      if alertID > 0 {
        message := cond.message;
      } else if pendingSince.None? {
        pendingSince := Some(now);
      }
    }

    /** What fire writes to the track once the row is open. */
    method Opened(id: int, now: Time, text: string)
      modifies this
      ensures Value() ==
              old(Value()).(alertID := id, lastTransition := Some(now), message := text, pendingSince := None)
    {
      alertID := id;
      lastTransition := Some(now);
      message := text;
      pendingSince := None;
    }

    constructor Restored(a: AlertRow)
      ensures key == RowKey(a) && Value() == RestoredTrack(a)
    {
      key := RowKey(a);
      pendingSince, clearSince, alertID, lastTransition := None, None, a.id, Some(a.firedAt * SECOND);
      message, targetName, severity := a.message, a.targetName, a.severity;
    }
  }

  function Marked(tr: TrackValue, now: Time, cond: Condition): TrackValue {
    var tr' := tr.(clearSince := None, targetName := cond.targetName, severity := cond.severity);
    if tr'.alertID > 0 then tr'.(message := cond.message)
    else if tr'.pendingSince.None? then tr'.(pendingSince := Some(now)) else tr'
  }

  /** What the first loop does with a marked track: it fires once the condition has been held long enough. */
  function Decided(marked: Sys, env: Env, k: Key, cond: Condition, tr: TrackValue): Sys
    requires tr.alertID > 0 || tr.pendingSince.Some?
  {
    if tr.alertID > 0 || env.now - tr.pendingSince.value < cond.holdFor
       || (tr.lastTransition.Some? && env.now - tr.lastTransition.value < env.debounce)
    then marked else Fire(marked, env, k, cond, tr)
  }

  /** VisitActive as the code runs it: mark the track, then decide on the marked one. */
  lemma MarkThenDecide(s: Sys, env: Env, k: Key)
    requires k in env.active
    ensures var cond := env.active[k];
            var tr := Marked(if k in s.tracks then s.tracks[k] else FreshTrack, env.now, cond);
            VisitActive(s, env, k) == Decided(s.(tracks := s.tracks[k := tr]), env, k, cond, tr)
  {
    hide Fire;
  }

  class Engine {
    const thresholds: Thresholds
    const notifier: bool  // is a notification channel configured
    const store: Store
    var tracks: map<Key, Track>
    var queue: seq<Notification>
    ghost var values: map<Key, TrackValue>  // what the tracks hold
    ghost var log: seq<AlertRow>
    ghost var posts: seq<Post>

    /** The track of `k` is filed under its own key, and `values` says what it holds. */
    ghost predicate HeldAt(k: Key)
      reads `tracks, `values, if k in tracks then {tracks[k]} else {}
    {
      k in tracks && k in values && tracks[k].key == k && tracks[k].Value() == values[k]
    }

    ghost predicate Valid()
      reads `tracks, `values, tracks.Values
    {
      values.Keys == tracks.Keys && forall k {:trigger HeldAt(k)} | k in tracks :: HeldAt(k)
    }

    // What keeps Valid: one track made or written, or one taken out.

    twostate lemma StillHeld(k: Key)
      requires old(Valid()) && k in tracks && k in old(tracks) && tracks[k] == old(tracks[k])
      requires tracks[k].Value() == old(tracks[k].Value())
      requires k in values && values[k] == old(values[k])
      ensures HeldAt(k)
    {
      assert old(HeldAt(k));
    }

    twostate lemma OtherStillHeld(k: Key, new other: Key)
      requires old(Valid()) && k in old(tracks) && other in old(tracks) && other != k
      requires other in tracks && tracks[other] == old(tracks[other])
      requires other in values && values[other] == old(values[other])
      requires forall tr | tr in old(tracks.Values) && tr != old(tracks[k]) :: tr.Value() == old(tr.Value())
      ensures HeldAt(other)
    {
      assert old(HeldAt(k)) && old(HeldAt(other));
      assert old(tracks[other]) in old(tracks.Values);
      StillHeld(other);
    }

    twostate lemma TrackWritten(k: Key)
      requires old(Valid()) && k in tracks && tracks == old(tracks) && tracks[k].key == k
      requires values == old(values)[k := tracks[k].Value()]
      requires forall tr | tr in tracks.Values && tr != tracks[k] :: tr.Value() == old(tr.Value())
      ensures Valid()
    {
      forall k' | k' in tracks ensures HeldAt(k') {
        if k' != k { OtherStillHeld(k, k'); }
      }
    }

    twostate lemma TrackAdded(k: Key, new tr: Track)
      requires old(Valid()) && tracks == old(tracks)[k := tr] && tr.key == k
      requires values == old(values)[k := tr.Value()]
      requires forall t | t in old(tracks.Values) :: t.Value() == old(t.Value())
      ensures Valid()
    {
      assert HeldAt(k);
      forall k' | k' in tracks && k' != k ensures HeldAt(k') {
        assert old(tracks[k']) in old(tracks.Values);
        StillHeld(k');
      }
    }

    twostate lemma TrackRemoved(k: Key)
      requires old(Valid()) && k in old(tracks) && tracks == old(tracks) - {k} && values == old(values) - {k}
      requires forall tr | tr in old(tracks.Values) && tr != old(tracks[k]) :: tr.Value() == old(tr.Value())
      ensures Valid()
    {
      forall k' | k' in tracks ensures HeldAt(k') { OtherStillHeld(k, k'); }
    }

    ghost function View(): Sys
      reads this, store
    {
      Sys(values, queue, store.rows, store.nextID, log, posts)
    }

    constructor (thresholds: Thresholds, notifier: bool, store: Store, ghost log: seq<AlertRow>, ghost posts: seq<Post>)
      ensures this.store == store && this.thresholds == thresholds && this.notifier == notifier
      ensures Valid() && View() == Sys(map[], [], store.rows, store.nextID, log, posts)
    {
      this.thresholds, this.notifier, this.store := thresholds, notifier, store;
      this.tracks, this.values, this.queue, this.log, this.posts := map[], map[], [], log, posts;
    }

    // Restore.

    /** `origin` names for each track the firing row it was restored from. */
    ghost predicate StandFor(origin: map<Key, int>)
      reads this, store
    {
      && origin.Keys == values.Keys
      && forall k | k in origin :: RestoredFrom(origin[k], k)
    }

    /** The track of `k` is what Restore makes of the firing row `id`. */
    ghost predicate RestoredFrom(id: int, k: Key)
      reads this, store
    {
      && id in store.rows && store.rows[id].state.Firing? && RowKey(store.rows[id]) == k
      && k in values && values[k] == RestoredTrack(store.rows[id])
    }

    method PutRestored(a: AlertRow, ghost id: int, ghost origin: map<Key, int>)
      requires Valid() && StandFor(origin) && id in store.rows && store.rows[id] == a && a.state.Firing?
      modifies `tracks, `values
      ensures Valid() && StandFor(origin[RowKey(a) := id])
    {
      var tr := new Track.Restored(a);
      tracks := tracks[KeyOf(a.rule, a.target) := tr];
      values := values[RowKey(a) := RestoredTrack(a)];
      TrackAdded(RowKey(a), tr);
    }

    method RestoreRows() returns (ghost origin: map<Key, int>)
      requires Valid() && tracks == map[]
      modifies `tracks, `values
      ensures Valid() && StandFor(origin)
      ensures forall id | id in store.rows && store.rows[id].state.Firing? :: RowKey(store.rows[id]) in origin
    {
      var firing, ids := store.FiringAlerts();
      origin := map[];
      for i := 0 to |firing|
        invariant Valid() && StandFor(origin)
        invariant forall j | 0 <= j < i :: RowKey(firing[j]) in origin
      {
        PutRestored(firing[i], ids[i], origin);
        origin := origin[RowKey(firing[i]) := ids[i]];
      }
    }

    /** On a new engine, after the rows a former process left behind: one track for every key with a firing row,
        restored from such a row, and so exactly Restart where no key has two. */
    method Restore()
      requires Valid() && tracks == map[] && queue == []
      modifies `tracks, `values
      ensures Valid() && tracks.Keys == FiringKeysOf(store.rows)
      ensures forall k | k in tracks :: exists id :: RestoredFrom(id, k)
      ensures OneFiring(store.rows) ==> View() == Restart(old(View()))
    {
      hide FiringKeysOf, RestoredFrom, OneFiring, RestoredTracks, StandFor;
      ghost var origin := RestoreRows();
      RestoredKeys(origin);
      if OneFiring(store.rows) { RestoredValues(origin); }
    }

    lemma RestoredKeys(origin: map<Key, int>)
      requires StandFor(origin)
      requires forall id | id in store.rows && store.rows[id].state.Firing? :: RowKey(store.rows[id]) in origin
      ensures values.Keys == FiringKeysOf(store.rows)
      ensures forall k | k in values :: exists id :: RestoredFrom(id, k)
    {
      forall k | k in values ensures k in FiringKeysOf(store.rows) && exists id :: RestoredFrom(id, k) {
        assert RestoredFrom(origin[k], k);
      }
      assert forall k | k in FiringKeysOf(store.rows) :: k in values;
    }

    lemma RestoredValues(origin: map<Key, int>)
      requires OneFiring(store.rows) && StandFor(origin) && values.Keys == FiringKeysOf(store.rows)
      ensures values == RestoredTracks(store.rows)
    {
      forall k | k in values ensures values[k] == RestoredTracks(store.rows)[k] {
        assert RestoredFrom(origin[k], k);
        assert FiringRowOf(store.rows, k) == origin[k];
      }
    }

    predicate IsFiring(rule: string, target: string)
      reads this, tracks.Values
    {
      KeyOf(rule, target) in tracks && tracks[KeyOf(rule, target)].alertID > 0
    }

    method Enqueue(n: Notification)
      modifies this`queue
      ensures queue == Enqueued(old(queue), n, notifier)
    {
      if !notifier { return; }
      if |queue| < QUEUE_CAPACITY {
        queue := queue + [n];
      }
    }

    /** What other goroutines do to the table and the queue. */
    method Others(e: SideEvent)
      modifies `queue, store`rows
      ensures View() == AfterSide(old(View()), e)
    {
      match e
      case Prune(cutoff) => store.PruneAlerts(cutoff);
      case Ack(id, at) => var _ := store.AckAlert(id, at * SECOND);
      case Notified(id, at) => store.MarkAlertNotified(id, at * SECOND);
      case Take => if queue != [] { queue := queue[1..]; }
    }

    method Meanwhile(es: seq<SideEvent>)
      modifies `queue, store`rows
      ensures View() == AfterSides(old(View()), es)
    {
      for i := 0 to |es|
        invariant View() == AfterSides(old(View()), es[..i])
      {
        assert es[..i + 1][..i] == es[..i];
        Others(es[i]);
      }
      assert es[..|es|] == es;
    }

    method FireTrack(env: Env, k: Key, cond: Condition, tr: Track, ok: bool)
      requires Valid() && k in tracks && tracks[k] == tr
      requires ok == (k in env.ok) && env.notifier == notifier
      modifies `queue, `values, `log, `posts, store, tr
      ensures Valid() && View() == Fire(old(View()), env, k, cond, old(tr.Value()))
    {
      var rec := AlertRow(0, cond.rule, cond.target, cond.targetName, cond.severity, cond.message, Firing,
                          Unix(env.now), 0, 0, 0);
      var r := store.OpenAlert(rec, ok);
      if r.Failed? { return; }
      Meanwhile(Amid(env, k));
      AnnounceFiring(env, k, cond, tr, rec.(id := r.value));
    }

    /** The rest of fire: memory, message, notification. */
    method AnnounceFiring(env: Env, k: Key, cond: Condition, tr: Track, rec: AlertRow)
      requires Valid() && k in tracks && tracks[k] == tr
      modifies `queue, `values, `log, `posts, tr
      ensures Valid()
      ensures var was := old(View());
        View() == was.(
          tracks := was.tracks[k := old(tr.Value()).(
            alertID := rec.id, lastTransition := Some(env.now), message := cond.message, pendingSince := None)],
          queue := Enqueued(was.queue, Notification(
            Text(Firing, cond.severity, cond.rule, cond.targetName, cond.message, env.now), rec.id), notifier),
          log := was.log + [rec], posts := was.posts + [Post(rec.id, Firing)])
    {
      assert HeldAt(k);
      tr.Opened(rec.id, env.now, cond.message);
      values := values[k := tr.Value()];
      TrackWritten(k);
      log := log + [rec];
      posts := posts + [Post(rec.id, Firing)];
      Enqueue(Notification(Text(Firing, cond.severity, cond.rule, cond.targetName, cond.message, env.now), rec.id));
    }

    method ResolveTrack(env: Env, k: Key, tr: Track, ok: bool)
      requires Valid() && k in tracks && tracks[k] == tr
      requires ok == (k in env.ok) && env.notifier == notifier
      modifies this, store
      ensures Valid() && tracks == if ok then old(tracks) - {k} else old(tracks)
      ensures View() == Resolve(old(View()), env, k, tr.Value())
    {
      var done := store.ResolveAlert(tr.alertID, env.now, ok);
      if !done { return; }
      Meanwhile(Amid(env, k));
      AnnounceResolved(env, k, tr);
    }

    /** The rest of resolve: message, notification, memory. */
    method AnnounceResolved(env: Env, k: Key, tr: Track)
      requires Valid() && k in tracks && tracks[k] == tr
      modifies this
      ensures Valid() && tracks == old(tracks) - {k}
      ensures var was, v := old(View()), tr.Value();
        View() == was.(
          tracks := was.tracks - {k},
          queue := Enqueued(was.queue, Notification(
            Text(Resolved, v.severity, RuleOf(k), v.targetName, v.message, env.now), 0), notifier),
          log := was.log + [ResolvedMessage(k, v, Unix(env.now))], posts := was.posts + [Post(v.alertID, Resolved)])
    {
      var rule, _ := SplitKey(k);
      log := log + [
        AlertRow(tr.alertID, rule, "", tr.targetName, tr.severity, tr.message, Resolved, 0, Unix(env.now), 0, 0)];
      posts := posts + [Post(tr.alertID, Resolved)];
      Enqueue(Notification(Text(Resolved, tr.severity, rule, tr.targetName, tr.message, env.now), 0));
      assert HeldAt(k);
      tracks, values := tracks - {k}, values - {k};
      TrackRemoved(k);
    }

    /** The tracks this call may write: those of its start, and new ones. */
    twostate predicate OwnTracks(was: map<Key, Track>)
      reads `tracks
    {
      forall k | k in tracks :: (k in was && tracks[k] == was[k]) || fresh(tracks[k])
    }

    /** The track of a key, made on first use. */
    method TrackFor(k: Key) returns (tr: Track)
      requires Valid()
      modifies `tracks, `values
      ensures Valid() && tracks == old(tracks)[k := tr]
      ensures if k in old(tracks) then tr == old(tracks)[k] else fresh(tr)
      ensures values == old(values)[k := if k in old(values) then old(values)[k] else FreshTrack]
    {
      if k in tracks {
        tr := tracks[k];
      } else {
        tr := new Track(k);
        tracks, values := tracks[k := tr], values[k := FreshTrack];
        TrackAdded(k, tr);
      }
    }

    /** The start of the first loop's body: find or make the track, and mark it. */
    method MarkActive(env: Env, k: Key, cond: Condition) returns (tr: Track)
      requires Valid()
      modifies `tracks, `values, tracks.Values
      ensures Valid() && HeldAt(k) && tracks == old(tracks)[k := tr]
      ensures tr.alertID > 0 || tr.pendingSince.Some?
      ensures if k in old(tracks) then tr == old(tracks)[k] else fresh(tr)
      ensures values == old(values)[
        k := Marked(if k in old(values) then old(values)[k] else FreshTrack, env.now, cond)]
    {
      hide Valid;
      tr := TrackFor(k);
      MarkTrack(k, tr, env.now, cond);
    }

    method MarkTrack(k: Key, tr: Track, now: Time, cond: Condition)
      requires Valid() && k in tracks && tracks[k] == tr
      modifies `values, tr
      ensures Valid() && values == old(values)[k := Marked(old(values)[k], now, cond)]
    {
      assert HeldAt(k);
      tr.Mark(now, cond);
      values := values[k := tr.Value()];
      TrackWritten(k);
    }

    /** The first loop's body. */
    method LookActive(env: Env, k: Key)
      requires Valid() && k in env.active && env.notifier == notifier
      modifies this, store, tracks.Values
      ensures Valid() && OwnTracks(old(tracks)) && tracks.Keys == old(tracks).Keys + {k}
      ensures View() == VisitActive(old(View()), env, k)
    {
      hide Decided, VisitActive, Marked, Valid;
      var cond := env.active[k];
      MarkThenDecide(View(), env, k);
      var tr := MarkActive(env, k, cond);
      FireWhenDue(env, k, cond, tr);
    }

    method FireWhenDue(env: Env, k: Key, cond: Condition, tr: Track)
      requires Valid() && HeldAt(k) && tracks[k] == tr && env.notifier == notifier
      requires tr.alertID > 0 || tr.pendingSince.Some?
      modifies `queue, `values, `log, `posts, store, tr
      ensures Valid() && View() == Decided(old(View()), env, k, cond, old(tr.Value()))
    {
      hide Fire, Valid;
      if tr.alertID > 0 { return; }
      if env.now - tr.pendingSince.value < cond.holdFor { return; }
      if tr.lastTransition.Some? && env.now - tr.lastTransition.value < env.debounce { return; }
      FireTrack(env, k, cond, tr, k in env.ok);
    }

    /** The second loop's body, for a key that is not active. */
    method LookQuiet(env: Env, k: Key)
      requires Valid() && k in tracks && k !in env.active && env.notifier == notifier
      modifies this, store, tracks.Values
      ensures Valid() && OwnTracks(old(tracks)) && tracks.Keys + {k} == old(tracks).Keys
      ensures View() == VisitQuiet(old(View()), env, k)
    {
      var tr := tracks[k];
      assert HeldAt(k);
      tr.pendingSince := None;
      if tr.alertID == 0 {
        tracks, values := tracks - {k}, values - {k};
        TrackRemoved(k);
        return;
      }
      if tr.clearSince.None? {
        tr.clearSince := Some(env.now);
      }
      values := values[k := tr.Value()];
      TrackWritten(k);
      if env.now - tr.clearSince.value < env.debounce { return; }
      ResolveTrack(env, k, tr, k in env.ok);
    }

    static method IsDown(t: Thresholds, clock: Time, c: Container) returns (down: bool)
      ensures forall e: Inputs | e.t == t && e.clock == clock :: down == ContainerDown(e, c)
    {
      if c.state == "running" || c.state == "paused" || c.state == "created" || c.state == "restarting" {
        return c.state == "restarting" && clock - c.finishedAt * SECOND > t.debounce;
      }
      if c.restartPolicy == "always" || c.restartPolicy == "unless-stopped" { return true; }
      if c.restartPolicy == "on-failure" { return c.exitCode != 0; }
      return c.exitCode != 0 && !(c.finishedAt != 0 && clock - c.finishedAt * SECOND > DAY);
    }

    ghost function FiringKeys(): set<Key>
      reads this, tracks.Values
    {
      set k | k in tracks && tracks[k].alertID > 0
    }

    ghost function InputsNow(restarts: map<string, int>, clock: Time, say: (string, string) -> string): Inputs
      reads this, tracks.Values
    {
      Inputs(thresholds, restarts, FiringKeys(), clock, say)
    }

    /** One pass of the container loop. */
    method RaiseForContainer(ghost e: Inputs, h: Host, c: Container, restarts: map<string, int>, clock: Time,
                             say: (string, string) -> string) returns (out: seq<Condition>)
      requires e == InputsNow(restarts, clock, say)
      ensures out == ContainerConditions(e, h, c)
    {
      var t := thresholds;
      out := [];
      var down := IsDown(t, clock, c);
      if down {
        out := out + [Condition("container_down", c.id, c.name, "critical", say("container_down", c.id), t.debounce)];
      }
      var n := if c.id in restarts then restarts[c.id] else 0;
      if n >= t.restartLoopCount {
        out := out + [Condition("restart_loop", c.id, c.name, "critical", say("restart_loop", c.id), 0)];
      }
      if c.health == "unhealthy" {
        out := out + [Condition("health_failing", c.id, c.name, "warning", say("health_failing", c.id), t.debounce)];
      }
      var loads := RaiseForLoads(e, h, c, say);
      out := out + loads;
    }

    /** Its last block, on the CPU and memory of a running container. */
    method RaiseForLoads(ghost e: Inputs, h: Host, c: Container, say: (string, string) -> string)
      returns (out: seq<Condition>)
      requires e.t == thresholds && e.say == say && e.firing == FiringKeys()
      ensures out == LoadConditions(e, h, c)
    {
      var t := thresholds;
      out := [];
      if c.live.Some? && c.state == "running" {
        var cpuLimit := t.cpuPercent;
        if IsFiring("cpu_high", c.id) {
          cpuLimit := cpuLimit - PERCENT_HYSTERESIS;
        }
        var cpuScale := 1.0;
        if c.cpuLimit > 0.0 {
          cpuScale := c.cpuLimit;
        } else if h.cpus > 0 {
          cpuScale := h.cpus as real;
        }
        var cpuPct := c.live.value.cpuPercent / cpuScale;
        if cpuPct >= cpuLimit {
          out := out + [Condition("cpu_high", c.id, c.name, "warning", say("cpu_high", c.id), t.sustainedFor)];
        }
        if c.live.value.memLimit > 0 && c.memoryLimit > 0 {
          var memLimit := t.memoryPercent;
          if IsFiring("memory_high", c.id) {
            memLimit := memLimit - PERCENT_HYSTERESIS;
          }
          var memPct := c.live.value.memBytes as real / c.live.value.memLimit as real * 100.0;
          if memPct >= memLimit {
            out := out + [Condition("memory_high", c.id, c.name, "warning", say("memory_high", c.id), t.sustainedFor)];
          }
        }
      }
    }

    method RaiseForHost(ghost e: Inputs, h: Host, say: (string, string) -> string) returns (out: seq<Condition>)
      requires e.t == thresholds && e.say == say && e.firing == FiringKeys()
      ensures out == HostConditions(e, h)
    {
      var t := thresholds;
      out := [];
      if h.memTotal > 0 {
        var limit := t.memoryPercent;
        if IsFiring("host_memory_high", "host") {
          limit := limit - PERCENT_HYSTERESIS;
        }
        if h.memUsed as real / h.memTotal as real * 100.0 >= limit {
          out := out + [Condition("host_memory_high", "host", h.hostname, "warning",
                            say("host_memory_high", "host"), t.sustainedFor)];
        }
      }
      if h.cpus > 0 {
        var limit := t.cpuPercent;
        if IsFiring("host_cpu_high", "host") {
          limit := limit - PERCENT_HYSTERESIS;
        }
        if h.cpuPercent >= limit {
          out := out + [Condition("host_cpu_high", "host", h.hostname, "warning",
                            say("host_cpu_high", "host"), t.sustainedFor)];
        }
      }
    }

    method RaiseForMounts(ghost e: Inputs, mounts: seq<MountUsage>, say: (string, string) -> string)
      returns (out: seq<Condition>)
      requires e.t == thresholds && e.say == say && e.firing == FiringKeys()
      ensures out == Gather(mounts, OfMount(e))
    {
      out := [];
      for i := 0 to |mounts|
        invariant out == Gather(mounts[..i], OfMount(e))
      {
        var m := mounts[i];
        GatherStep(mounts, OfMount(e), i);
        if m.total == 0 { continue; }
        var limit := thresholds.diskPercent;
        if IsFiring("disk_high", m.mount) {
          limit := limit - PERCENT_HYSTERESIS;
        }
        if m.used as real / m.total as real * 100.0 >= limit {
          out := out + [Condition("disk_high", m.mount, m.mount, "warning",
                            say("disk_high", m.mount), thresholds.sustainedFor)];
        }
      }
      assert mounts[..|mounts|] == mounts;
    }

    /** One pass of the disk loop. */
    method RaiseForDisk(ghost e: Inputs, d: Disk, say: (string, string) -> string) returns (out: seq<Condition>)
      requires e.t == thresholds && e.say == say && e.firing == FiringKeys()
      ensures out == DiskConditions(e, d)
    {
      out := [];
      var name := d.device;
      if d.model != "" {
        name := d.device + " (" + d.model + ")";
      }
      if !Healthy(d) {
        out := out + [Condition("smart_failing", d.device, name, "critical", say("smart_failing", d.device), 0)];
      }
      if d.standby || d.temperature == 0 { return; }
      var limit := thresholds.diskTemp;
      if IsFiring("disk_temp_high", d.device) {
        limit := limit - TEMP_HYSTERESIS;
      }
      if d.temperature >= limit {
        out := out + [Condition("disk_temp_high", d.device, name, "warning",
                          say("disk_temp_high", d.device), thresholds.sustainedFor)];
      }
    }

    method RaiseForDisks(ghost e: Inputs, disks: seq<Disk>, say: (string, string) -> string)
      returns (out: seq<Condition>)
      requires e.t == thresholds && e.say == say && e.firing == FiringKeys()
      ensures out == Gather(disks, OfDisk(e))
    {
      out := [];
      for i := 0 to |disks|
        invariant out == Gather(disks[..i], OfDisk(e))
      {
        GatherStep(disks, OfDisk(e), i);
        var raised := RaiseForDisk(e, disks[i], say);
        out := out + raised;
      }
      assert disks[..|disks|] == disks;
    }

    method RaiseForArrays(ghost e: Inputs, arrays: seq<Array>, say: (string, string) -> string)
      returns (out: seq<Condition>)
      requires e.t == thresholds && e.say == say
      ensures out == Gather(arrays, OfArray(e))
    {
      out := [];
      for i := 0 to |arrays|
        invariant out == Gather(arrays[..i], OfArray(e))
      {
        var a := arrays[i];
        GatherStep(arrays, OfArray(e), i);
        if a.active && !a.degraded { continue; }
        out := out + [Condition("raid_degraded", a.name, a.name + " " + a.level, "critical",
                          say("raid_degraded", a.name), 0)];
      }
      assert arrays[..|arrays|] == arrays;
    }

    method RaiseForSources(ghost e: Inputs, sources: map<string, SourceStatus>, say: (string, string) -> string)
      returns (out: seq<Condition>)
      requires e.t == thresholds && e.say == say
      ensures out == Gather(["docker", "portainer"], OfSource(e, sources))
    {
      out := [];
      var names := ["docker", "portainer"];
      for i := 0 to |names|
        invariant out == Gather(names[..i], OfSource(e, sources))
      {
        var name := names[i];
        GatherStep(names, OfSource(e, sources), i);
        if name !in sources || sources[name].ok { continue; }
        out := out + [Condition("host_unreachable", name, name, "critical",
                          say("host_unreachable", name), thresholds.hostUnreachableFor)];
      }
      assert names[..|names|] == names;
    }

    method RaiseForContainers(ghost e: Inputs, snap: Snapshot, restarts: map<string, int>, clock: Time,
                              say: (string, string) -> string) returns (out: seq<Condition>)
      requires e == InputsNow(restarts, clock, say)
      ensures out == Gather(snap.containers, OfContainer(e, snap.host))
    {
      out := [];
      for i := 0 to |snap.containers|
        invariant out == Gather(snap.containers[..i], OfContainer(e, snap.host))
      {
        GatherStep(snap.containers, OfContainer(e, snap.host), i);
        var raised := RaiseForContainer(e, snap.host, snap.containers[i], restarts, clock, say);
        out := out + raised;
      }
      assert snap.containers[..|snap.containers|] == snap.containers;
    }

    /** The host, its mounts and its drives. */
    method RaisedByHost(ghost e: Inputs, snap: Snapshot, say: (string, string) -> string) returns (out: seq<Condition>)
      requires e.t == thresholds && e.say == say && e.firing == FiringKeys()
      ensures out == MachineConditions(e, snap)
    {
      out := RaiseForHost(e, snap.host, say);
      var more := RaiseForMounts(e, snap.host.mounts, say);
      out := out + more;
      more := RaiseForDisks(e, snap.disks, say);
      out := out + more;
    }

    /** conditions: everything the snapshot raises, given what fires now. */
    method RaisedConditions(snap: Snapshot, restarts: map<string, int>, clock: Time, say: (string, string) -> string)
      returns (out: seq<Condition>)
      ensures out == Conditions(InputsNow(restarts, clock, say), snap)
    {
      hide ContainerConditions, HostConditions, MountConditions, DiskConditions, ArrayConditions,
        SourceConditions, SizeConditions, Gather;
      ghost var e := InputsNow(restarts, clock, say);
      out := RaiseForContainers(e, snap, restarts, clock, say);
      var more := RaisedByHost(e, snap, say);
      out := out + more;
      more := RaiseForArrays(e, snap.arrays, say);
      out := out + more;
      more := RaiseForSources(e, snap.sources, say);
      out := out + more;
      more := RaiseForSize(e, snap.dbBytes, say);
      out := out + more;
    }

    method RaiseForSize(ghost e: Inputs, dbBytes: int, say: (string, string) -> string) returns (out: seq<Condition>)
      requires e.t == thresholds && e.say == say
      ensures out == SizeConditions(e, dbBytes)
    {
      out := [];
      if thresholds.dbMax > 0 && dbBytes > thresholds.dbMax {
        out := out + [Condition("db_size", "sqlite", "dashboard.db", "warning", say("db_size", "sqlite"), 0)];
      }
    }

    static method MakeActive(conds: seq<Condition>) returns (active: map<Key, Condition>)
      ensures active == ActiveMap(conds)
      ensures forall k | k in active :: KeyOf(active[k].rule, active[k].target) == k
    {
      active := map[];
      for i := 0 to |conds|
        invariant active == ActiveMap(conds[..i])
        invariant forall k | k in active :: KeyOf(active[k].rule, active[k].target) == k
      {
        assert conds[..i + 1][..i] == conds[..i];
        active := active[KeyOf(conds[i].rule, conds[i].target) := conds[i]];
      }
      assert conds[..|conds|] == conds;
    }

    method StepActive(env: Env, k: Key, ghost was: Sys, ghost script: seq<Act>, ghost seen: set<Key>)
      requires Progress(was, env, script) && k in env.active && Covers(script, seen) && k !in seen
      modifies this, store, tracks.Values
      ensures OwnTracks(old(tracks)) && Progress(was, env, script + [Look(k)])
      ensures Covers(script + [Look(k)], seen + {k})
      ensures tracks.Keys == old(tracks).Keys + {k}
    {
      LookActive(env, k);
      ScriptGrows(script, k, seen);
      ProgressStep(was, env, script, k, View());
    }

    method StepQuiet(env: Env, k: Key, ghost was: Sys, ghost script: seq<Act>, ghost seen: set<Key>)
      requires Progress(was, env, script) && k in tracks && k !in env.active && Covers(script, seen) && k !in seen
      modifies this, store, tracks.Values
      ensures OwnTracks(old(tracks)) && Progress(was, env, script + [Look(k)])
      ensures Covers(script + [Look(k)], seen + {k})
      ensures tracks.Keys + {k} == old(tracks).Keys
    {
      LookQuiet(env, k);
      ScriptGrows(script, k, seen);
      ProgressStep(was, env, script, k, View());
    }

    /** Evaluate's first loop, over the active map in any order. */
    method VisitActives(env: Env) returns (ghost script: seq<Act>)
      requires Valid() && env.notifier == notifier
      modifies this, store, tracks.Values
      ensures OwnTracks(old(tracks)) && Progress(old(View()), env, script)
      ensures Covers(script, env.active.Keys)
      ensures tracks.Keys == old(tracks).Keys + env.active.Keys
    {
      script := [];
      ghost var was := View();
      var todo := env.active.Keys;
      VisitedNone(old(tracks).Keys, env.active.Keys);
      while todo != {}
        invariant OwnTracks(old(tracks)) && Progress(was, env, script)
        invariant todo <= env.active.Keys
        invariant Covers(script, env.active.Keys - todo)
        invariant tracks.Keys == old(tracks).Keys + (env.active.Keys - todo)
      {
        ghost var some := SomeElement(todo);
        var k :| k in todo;
        VisitedMore(old(tracks).Keys, env.active.Keys, todo, k);
        StepActive(env, k, was, script, env.active.Keys - todo);
        script := script + [Look(k)];
        todo := todo - {k};
      }
    }

    /** Its second loop, over the tracks in any order; visited tracks may go. */
    method VisitQuiets(env: Env, ghost was: Sys, ghost before: seq<Act>) returns (ghost script: seq<Act>)
      requires Progress(was, env, before)
      requires Covers(before, env.active.Keys)
      modifies this, store, tracks.Values
      ensures OwnTracks(old(tracks)) && Progress(was, env, script)
      ensures Covers(script, env.active.Keys + old(tracks).Keys)
    {
      hide Progress, Covers;
      script := before;
      var todo := tracks.Keys;
      ghost var all := tracks.Keys;
      VisitedNone(env.active.Keys, all);
      while todo != {}
        invariant OwnTracks(old(tracks)) && Progress(was, env, script)
        invariant Covers(script, env.active.Keys + (all - todo))
        invariant todo <= tracks.Keys && todo <= all
        decreases todo
      {
        ghost var some := SomeElement(todo);
        var k :| k in todo;
        VisitedMore(env.active.Keys, all, todo, k);
        if k !in env.active {
          StepQuiet(env, k, was, script, env.active.Keys + (all - todo));
          script := script + [Look(k)];
        }
        todo := todo - {k};
      }
    }

    /** Both loops. */
    method Sweep(env: Env) returns (ghost script: seq<Act>)
      requires Valid() && ValidEnv(env) && env.notifier == notifier
      modifies this, store, tracks.Values
      ensures Progress(old(View()), env, script)
      ensures Possible(old(View()), Event.Evaluate(env, script))
    {
      script := VisitActives(env);
      script := VisitQuiets(env, old(View()), script);
    }

    /** Evaluate. `ok` holds the keys whose store call succeeds, `amid` what others do to the table before such a
        call's visit goes on; `script` is the order the map loops took. */
    method Evaluate(now: Time, clock: Time, snap: Snapshot, restarts: map<string, int>,
                    say: (string, string) -> string, ok: set<Key>, amid: map<Key, seq<SideEvent>>)
      returns (ghost env: Env, ghost script: seq<Act>)
      requires Valid()
      modifies this, store, tracks.Values
      ensures env == Env(now, thresholds.debounce,
        ActiveMap(Conditions(old(InputsNow(restarts, clock, say)), snap)), ok, notifier, amid)
      ensures Progress(old(View()), env, script)
      ensures Possible(old(View()), Event.Evaluate(env, script))
    {
      var conds := RaisedConditions(snap, restarts, clock, say);
      var active := MakeActive(conds);
      var e := Env(now, thresholds.debounce, active, ok, notifier, amid);
      env := e;
      script := Sweep(e);
    }

    /** The engine is where these visits have brought it. */
    ghost predicate Progress(was: Sys, env: Env, script: seq<Act>)
      reads this, store, tracks.Values
    {
      && Valid() && env.notifier == notifier
      && LooksOnce(script) && View() == Process(was, env, script)
    }

    static ghost predicate LooksOnce(script: seq<Act>) {
      NoDup(Looked(script)) && forall a | a in script :: a.Look?
    }

    static lemma ScriptGrows(script: seq<Act>, k: Key, seen: set<Key>)
      requires LooksOnce(script) && Covers(script, seen) && k !in seen
      ensures LooksOnce(script + [Look(k)]) && Covers(script + [Look(k)], seen + {k})
    {
      assert (script + [Look(k)])[..|script|] == script;
    }

    static ghost predicate Covers(script: seq<Act>, keys: set<Key>) {
      forall k :: k in Looked(script) <==> k in keys
    }

    static lemma VisitedNone(base: set<Key>, all: set<Key>)
      ensures base + (all - all) == base && all - all == {} && all - {} == all
    {}

    static lemma VisitedMore(base: set<Key>, all: set<Key>, todo: set<Key>, k: Key)
      requires k in todo && k in all
      ensures base + (all - todo) + {k} == base + (all - (todo - {k}))
      ensures all - todo + {k} == all - (todo - {k})
      ensures k in base ==> base + (all - (todo - {k})) == base + (all - todo)
    {}

    static lemma ProgressStep(was: Sys, env: Env, script: seq<Act>, k: Key, now: Sys)
      requires now == Visit(Process(was, env, script), env, k)
      ensures now == Process(was, env, script + [Look(k)])
    {
      assert (script + [Look(k)])[..|script|] == script;
    }

    // The consumer.

    const MAX_SENDS := 6  // one attempt, and one more after each of five delays

    /** deliver: `sent` says whether an attempt succeeds, `cancelled` whether the context ends in the wait
        after it, `marked` whether the table accepts the notified mark. */
    method Deliver(n: Notification, at: Time, sent: nat -> bool, cancelled: nat -> bool, marked: bool)
      returns (sends: nat, delivered: bool)
      modifies store`rows
      ensures 1 <= sends <= 6
      ensures forall i | 0 <= i < sends - 1 :: !sent(i) && !cancelled(i)
      ensures delivered == sent(sends - 1)
      ensures !delivered ==> sends == 6 || cancelled(sends - 1)
      ensures store.rows == if delivered && n.alertID > 0 && marked
                            then NotifiedRow(old(store.rows), n.alertID, Unix(at)) else old(store.rows)
    {
      sends := 0;
      while true
        invariant sends < MAX_SENDS && store.rows == old(store.rows)
        invariant forall i | 0 <= i < sends :: !sent(i) && !cancelled(i)
        decreases MAX_SENDS - sends
      {
        var attempt := sends;
        sends := sends + 1;
        if sent(attempt) {
          if n.alertID > 0 && marked {
            store.MarkAlertNotified(n.alertID, at);
          }
          return sends, true;
        }
        if attempt == MAX_SENDS - 1 || cancelled(attempt) {
          return sends, false;
        }
      }
    }

    /** One turn of Run: the oldest notification leaves the queue and is delivered or given up before
        the next one is looked at. */
    method RunTurn(at: Time, sent: nat -> bool, cancelled: nat -> bool, marked: bool)
      returns (sends: nat, delivered: bool)
      requires Valid() && queue != []
      modifies this`queue, store`rows
      ensures Valid() && tracks == old(tracks)
      ensures 1 <= sends <= 6 && delivered == sent(sends - 1)
      ensures forall i | 0 <= i < sends - 1 :: !sent(i) && !cancelled(i)
      ensures !delivered ==> sends == 6 || cancelled(sends - 1)
      ensures var n, taken := old(queue)[0], AfterSide(old(View()), Take);
        View() == if delivered && n.alertID > 0 && marked
                  then AfterSide(taken, Notified(n.alertID, Unix(at))) else taken
    {
      var n := queue[0];
      queue := queue[1..];
      sends, delivered := Deliver(n, at, sent, cancelled, marked);
    }
  }
}
