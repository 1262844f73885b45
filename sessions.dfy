/**
 * The tracker used as the `track` documentation shows it: sessions of a
 * reused tracker add up, sessions of a resetting tracker start afresh, and
 * the timing tracker's `time` total spans the clock readings.
 */
module Sessions {
  import opened Wrappers
  import opened Accumulator
  import opened Timing
  import opened DeviceTracker

  lemma OneExecution(a: Accum)
    ensures Tot(Apply(a, [("executions", Some(1))]), "executions") == Tot(a, "executions") + 1
    ensures "executions" in Apply(a, [("executions", Some(1))]).totals
  {
    var kw: Kwargs := [("executions", Some(1))];
    assert kw[..0] == [];
    assert Apply(a, kw) == Step(a, "executions", Some(1));
  }

  /** With `reset_on_enter=False`, a second session adds on to the first one's totals. */
  method ReusedTrackerAccumulates() returns (executions: int)
    ensures executions == 2
  {
    var t := new DevTracker(resetOnEnter := false);
    var s := t.Enter();
    t.Update([("executions", Some(1))]);
    OneExecution(Empty);
    t.Exit(None);
    s := t.Enter();
    ghost var before := t.State();
    t.Update([("executions", Some(1))]);
    OneExecution(before);
    t.Exit(None);
    executions := t.totals["executions"];
  }

  /** With `reset_on_enter=True`, entering a used tracker discards what it held. */
  method ResettingTrackerForgets() returns (keys: nat)
    ensures keys == 0
  {
    var t := new DevTracker();
    var s := t.Enter();
    t.Update([("executions", Some(1)), ("shots", Some(10))]);
    t.Exit(None);
    s := t.Enter();
    keys := |t.totals|;
  }

  /**
   * A timing tracker entered at clock `r` and updated at clocks `c1` and `c2`
   * holds two `time` entries summing to `c2 - r`.
   */
  method TimingSpansClock(r: int, c1: int, c2: int) returns (entries: nat, total: int)
    ensures entries == 2 && total == c2 - r
  {
    var t := new TimingTracker(r);
    var s := t.Enter(r);
    t.Update(c1, [("executions", Some(1))]);
    t.Update(c2, [("executions", Some(1))]);
    t.Exit(None);
    entries := |Hist(t.base.State(), TimeKey)|;
    total := Tot(t.base.State(), TimeKey);
  }

  /** `track(dev)` with every default: a default tracker that resets on entry, attached to `dev`. */
  method TrackWithDefaults(dev: Device, now: int) returns (r: Result<TrackerRef, string>)
    modifies dev
    ensures r.Success? && r.value.DefaultRef? && r.value.tracker.resetOnEnter
    ensures dev.tracker == Some(r.value)
  {
    r := Track(dev, now);
  }
}
