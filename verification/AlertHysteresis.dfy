/** Threshold rules: the limit drops by a band while the alert fires, so values inside the band
    neither open nor close it. */
module AlertHysteresis {
  import opened AlertAutomaton
  import opened AlertTiming

  ghost predicate Reaches(readings: set<real>, limit: real) {
    exists r :: r in readings && r >= limit
  }

  /** The readings an evaluation had for a metric (none: unavailable) decide the condition. */
  ghost predicate ThresholdTrace(trace: seq<KeyEvent>, readings: seq<set<real>>, limit: real, band: real,
                                 sustained: int) {
    && |readings| == |trace|
    && forall i | 0 <= i < |trace| && LookOf(trace[i]).Some? ::
         && (Saw(trace[i], true) <==> Reaches(readings[i], if FiringAt(trace, i) then limit - band else limit))
         && (Saw(trace[i], true) ==> At(trace, i).hold.value == sustained)
  }

  ghost predicate InBand(readings: set<real>, limit: real, band: real) {
    Reaches(readings, limit - band) && !Reaches(readings, limit)
  }

  /** While every reading stays in [limit - band, limit) the alert neither opens nor closes. */
  lemma {:induction false} NoFlapping(
    trace: seq<KeyEvent>, readings: seq<set<real>>, limit: real, band: real, sustained: int, i: nat, j: nat)
    requires ThresholdTrace(trace, readings, limit, band, sustained) && i <= j <= |trace|
    requires forall m | i <= m < j && LookOf(trace[m]).Some? :: InBand(readings[m], limit, band)
    ensures forall m | i <= m <= j :: FiringAt(trace, m) == FiringAt(trace, i)
  {
    if i < j {
      var n := j - 1;
      NoFlapping(trace, readings, limit, band, sustained, i, n);
      StepOf(trace, n);
      if LookOf(trace[n]).Some? {
        assert InBand(readings[n], limit, band);
        assert Saw(trace[n], true) <==> FiringAt(trace, n);
      }
      assert FiringAt(trace, j) == FiringAt(trace, n);
    }
  }

  /** Inside a stretch the status cannot turn towards what the stretch does not show. */
  lemma {:induction false} StatusInStretch(trace: seq<KeyEvent>, a: nat, i: nat, present: bool, n: nat)
    requires Stretch(trace, a, i, present) && a <= n <= i && FiringAt(trace, i) != present
    ensures FiringAt(trace, n) != present
    decreases i - n
  {
    if n < i {
      StatusInStretch(trace, a, i, present, n + 1);
      StepOf(trace, n);
    }
  }

  /** Between two openings the metric was below limit - band, or unavailable, at every evaluation of a
      stretch of at least the debounce, and then at or above the limit for the sustained time. */
  lemma ReopeningNeedsRecovery(
    trace: seq<KeyEvent>, readings: seq<set<real>>, limit: real, band: real, sustained: int, i: nat, j: nat)
    returns (a: nat, m: nat, b: nat)
    requires ThresholdTrace(trace, readings, limit, band, sustained)
    requires i < j && Opens(trace, i) && Opens(trace, j)
    ensures i < a <= m < b <= j
    ensures Stretch(trace, a, m, false) && At(trace, m).now - At(trace, a).now >= At(trace, m).debounce
    ensures forall n | a <= n <= m && LookOf(trace[n]).Some? :: !Reaches(readings[n], limit - band)
    ensures Stretch(trace, b, j, true) && At(trace, j).now - At(trace, b).now >= sustained
    ensures forall n | b <= n <= j && LookOf(trace[n]).Some? :: Reaches(readings[n], limit)
  {
    hide KeyRun, Reaches;
    a, m, b := OpeningsFrame(trace, i, j);
    forall n | a <= n <= m && LookOf(trace[n]).Some? ensures !Reaches(readings[n], limit - band) {
      StatusInStretch(trace, a, m, false, n);
    }
    forall n | b <= n <= j && LookOf(trace[n]).Some? ensures Reaches(readings[n], limit) {
      StatusInStretch(trace, b, j, true, n);
    }
  }
}
