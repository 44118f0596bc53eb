/** The threshold rules and the engine together: metric alerts do not flap. */
module AlertFlapping {
  import opened AlertKeys
  import opened AlertModel
  import opened AlertSafety
  import opened AlertAutomaton
  import opened AlertTiming
  import opened AlertHysteresis
  import opened AlertRules

  ghost function FiringKeys(s: Sys): set<Key> {
    set k | k in s.tracks && s.tracks[k].alertID > 0
  }

  /** Every evaluation's active map is what the rules raise for that evaluation's snapshot, with the
      alerts firing at its start and the same settings throughout. */
  ghost predicate DrivenBy(events: seq<Event>, snaps: seq<Snapshot>, inputs: seq<Inputs>, t: Thresholds) {
    && |snaps| == |inputs| == |events|
    && forall i | 0 <= i < |events| && ClockOf(events[i]).Some? ::
         && inputs[i].t == t
         && inputs[i].firing == FiringKeys(Run(events[..i]))
         && events[i].env.active == ActiveMap(Conditions(inputs[i], snaps[i]))
  }

  ghost function ReadingsOf(snaps: seq<Snapshot>, m: Metric, target: string): seq<set<real>> {
    seq(|snaps|, i requires 0 <= i < |snaps| => Readings(snaps[i], m, target))
  }

  lemma FiringKeyIsFiringAt(events: seq<Event>, k: Key, i: nat)
    requires Feasible(events) && i <= |events|
    ensures k in FiringKeys(Run(events[..i])) <==> FiringAt(Trace(events, k), i)
  {
    FeasiblePrefix(events, i);
    Safety(events[..i]);
    RunRefinesKeyRun(events[..i], k);
    assert Trace(events, k)[..i] == Trace(events[..i], k);
    var s := Run(events[..i]);
    if k in s.tracks { assert ValidTrack(s.tracks[k]); }
  }

  /** The rules make every metric's key follow the threshold scheme. */
  lemma {:induction false} RulesFollowThresholds(
    events: seq<Event>, snaps: seq<Snapshot>, inputs: seq<Inputs>, t: Thresholds, m: Metric, target: string)
    requires Feasible(events) && DrivenBy(events, snaps, inputs, t)
    ensures ThresholdTrace(Trace(events, KeyOf(RuleName(m), target)), ReadingsOf(snaps, m, target),
                           LimitOf(t, m), BandOf(m), t.sustainedFor)
  {
    var k := KeyOf(RuleName(m), target);
    var trace, readings := Trace(events, k), ReadingsOf(snaps, m, target);
    forall i | 0 <= i < |trace| && LookOf(trace[i]).Some?
      ensures Saw(trace[i], true) <==>
        Reaches(readings[i], if FiringAt(trace, i) then LimitOf(t, m) - BandOf(m) else LimitOf(t, m))
      ensures Saw(trace[i], true) ==> At(trace, i).hold.value == t.sustainedFor
    {
      LookIsTheClock(events, k, i);
      FiringKeyIsFiringAt(events, k, i);
      MetricKeyActive(inputs[i], snaps[i], m, target);
    }
  }

  /** While a metric's readings stay in [limit - band, limit), its alert row neither appears nor goes. */
  lemma {:induction false} MetricAlertDoesNotFlap(
    events: seq<Event>, snaps: seq<Snapshot>, inputs: seq<Inputs>, t: Thresholds, m: Metric, target: string,
    i: nat, j: nat)
    requires Feasible(events) && DrivenBy(events, snaps, inputs, t) && i <= j <= |events|
    requires forall n | i <= n < j && ClockOf(events[n]).Some? ::
      InBand(Readings(snaps[n], m, target), LimitOf(t, m), BandOf(m))
    ensures var k := KeyOf(RuleName(m), target);
      forall n | i <= n <= j :: HasFiringRow(Run(events[..n]).rows, k) == HasFiringRow(Run(events[..i]).rows, k)
  {
    var k := KeyOf(RuleName(m), target);
    var trace, readings := Trace(events, k), ReadingsOf(snaps, m, target);
    RulesFollowThresholds(events, snaps, inputs, t, m, target);
    forall n | i <= n < j && LookOf(trace[n]).Some? ensures InBand(readings[n], LimitOf(t, m), BandOf(m)) {
      LookIsTheClock(events, k, n);
    }
    NoFlapping(trace, readings, LimitOf(t, m), BandOf(m), t.sustainedFor, i, j);
    forall n | i <= n <= j
      ensures HasFiringRow(Run(events[..n]).rows, k) == HasFiringRow(Run(events[..i]).rows, k)
    {
      RowsFollowTrace(events, k, n);
      RowsFollowTrace(events, k, i);
    }
  }

  /** At every evaluation from `a` to `c`, at least the debounce, the metric was below `limit` or unavailable. */
  ghost predicate Recovers(
    events: seq<Event>, snaps: seq<Snapshot>, m: Metric, target: string, limit: real, a: nat, c: nat)
    requires |snaps| == |events|
  {
    var trace := Trace(events, KeyOf(RuleName(m), target));
    && Stretch(trace, a, c, false) && At(trace, c).now - At(trace, a).now >= At(trace, c).debounce
    && forall n | a <= n <= c && LookOf(trace[n]).Some? ::
         !Reaches(Readings(snaps[n], m, target), limit)
  }

  /** At every evaluation from `b` to `j`, at least the sustained time, the metric was at or above `limit`. */
  ghost predicate Exceeds(
    events: seq<Event>, snaps: seq<Snapshot>, m: Metric, target: string, limit: real, sustained: int, b: nat, j: nat)
    requires |snaps| == |events|
  {
    var trace := Trace(events, KeyOf(RuleName(m), target));
    && Stretch(trace, b, j, true) && At(trace, j).now - At(trace, b).now >= sustained
    && forall n | b <= n <= j && LookOf(trace[n]).Some? ::
         Reaches(Readings(snaps[n], m, target), limit)
  }

  lemma StretchesAreReadings(
    events: seq<Event>, snaps: seq<Snapshot>, m: Metric, target: string,
    low: real, a: nat, c: nat, limit: real, sustained: int, b: nat, j: nat)
    requires |snaps| == |events|
    requires var trace, readings := Trace(events, KeyOf(RuleName(m), target)), ReadingsOf(snaps, m, target);
      && Stretch(trace, a, c, false) && At(trace, c).now - At(trace, a).now >= At(trace, c).debounce
      && (forall n | a <= n <= c && LookOf(trace[n]).Some? :: !Reaches(readings[n], low))
      && Stretch(trace, b, j, true) && At(trace, j).now - At(trace, b).now >= sustained
      && (forall n | b <= n <= j && LookOf(trace[n]).Some? :: Reaches(readings[n], limit))
    ensures Recovers(events, snaps, m, target, low, a, c)
    ensures Exceeds(events, snaps, m, target, limit, sustained, b, j)
  {
    hide Readings, Reaches, RuleName, KeyOf;
  }

  /** A metric alert opened at `i` and again at `j` recovered in between, to below the limit less the band, for at
      least the debounce, and then exceeded the limit up to `j` for at least the sustained time. */
  lemma {:induction false} MetricAlertRecoversBeforeReopening(
    events: seq<Event>, snaps: seq<Snapshot>, inputs: seq<Inputs>, t: Thresholds, m: Metric, target: string,
    i: nat, j: nat) returns (a: nat, c: nat, b: nat)
    requires Feasible(events) && DrivenBy(events, snaps, inputs, t) && i < j
    requires RowOpens(events, KeyOf(RuleName(m), target), i) && RowOpens(events, KeyOf(RuleName(m), target), j)
    ensures i < a <= c < b <= j < |events| && |snaps| == |events|
    ensures Recovers(events, snaps, m, target, LimitOf(t, m) - BandOf(m), a, c)
    ensures Exceeds(events, snaps, m, target, LimitOf(t, m), t.sustainedFor, b, j)
  {
    assert |snaps| == |events| && j < |events|;
    hide *;
    var k := KeyOf(RuleName(m), target);
    RulesFollowThresholds(events, snaps, inputs, t, m, target);
    RowOpensInTrace(events, k, i);
    RowOpensInTrace(events, k, j);
    a, c, b := ReopeningNeedsRecovery(
      Trace(events, k), ReadingsOf(snaps, m, target), LimitOf(t, m), BandOf(m), t.sustainedFor, i, j);
    StretchesAreReadings(
      events, snaps, m, target, LimitOf(t, m) - BandOf(m), a, c, LimitOf(t, m), t.sustainedFor, b, j);
  }
}
