/**
 * The execution trackers of a device: `DevTracker`, the timing variant
 * `TimingTracker`, and the `track` dispatcher that builds one of them.
 */
module DeviceTracker {
  import opened Wrappers
  import opened Accumulator
  import opened Recording
  import opened Timing

  /** What a device's `tracker` attribute can refer to. */
  datatype TrackerRef = DefaultRef(tracker: DevTracker) | TimingRef(timing: TimingTracker)

  /** A device, of which only the `tracker` attribute is modelled. */
  class Device {
    var tracker: Option<TrackerRef>
  }

  class DevTracker {
    var resetOnEnter: bool
    var tracking: bool
    var totalsOrder: seq<string>
    var totals: map<string, int>
    var historyOrder: seq<string>
    var history: map<string, seq<Metric>>
    /** The keyword arguments of every update since the last reset, in call order. */
    ghost var log: seq<Kwargs>

    function State(): Accum
      reads this
    {
      Accum(totalsOrder, totals, historyOrder, history)
    }

    /** The dictionaries are exactly what the updates since the last reset made them. */
    ghost predicate Valid()
      reads this
    {
      State() == Replay(log)
    }

    /** `DevTracker(dev, reset_on_enter)`: empty state, not tracking, attached to `dev`. */
    constructor (dev: Device? := null, resetOnEnter: bool := true)
      modifies dev
      ensures Valid() && State() == Empty && log == []
      ensures this.resetOnEnter == resetOnEnter && !tracking
      ensures dev != null ==> dev.tracker == Some(DefaultRef(this))
    {
      this.resetOnEnter := resetOnEnter;
      totalsOrder, totals, historyOrder, history := [], map[], [], map[];
      log := [];
      tracking := false;
      new;
      if dev != null {
        dev.tracker := Some(DefaultRef(this));
      }
    }

    /** `__enter__`: start tracking, clearing the state first iff `reset_on_enter`. */
    method Enter() returns (self: DevTracker)
      requires Valid()
      modifies this
      ensures self == this && Valid() && tracking
      ensures resetOnEnter == old(resetOnEnter)
      ensures resetOnEnter ==> State() == Empty && log == []
      ensures !resetOnEnter ==> State() == old(State()) && log == old(log)
    {
      if resetOnEnter {
        Reset();
      }
      tracking := true;
      self := this;
    }

    /** `__exit__`: stop tracking, whatever exception (if any) ended the scope. */
    method Exit(exc: Option<string>)
      requires Valid()
      modifies this
      ensures Valid() && !tracking
      ensures State() == old(State()) && log == old(log) && resetOnEnter == old(resetOnEnter)
    {
      tracking := false;
    }

    /** `reset`: fresh, empty `totals` and `history`. */
    method Reset()
      modifies this
      ensures Valid() && State() == Empty && log == []
      ensures tracking == old(tracking) && resetOnEnter == old(resetOnEnter)
    {
      totalsOrder, totals, historyOrder, history := [], map[], [], map[];
      log := [];
    }

    /**
     * `update(**current)`: for each keyword in order, append the value to
     * `history[key]` and, unless it is `None`, add it to `totals[key]`.
     */
    method Update(current: Kwargs)
      requires Valid()
      modifies this
      ensures Valid() && log == old(log) + [current]
      ensures State() == Apply(old(State()), current)
      ensures tracking == old(tracking) && resetOnEnter == old(resetOnEnter)
    {
      ghost var start := State();
      var i := 0;
      while i < |current|
        invariant 0 <= i <= |current|
        invariant State() == Apply(start, current[..i])
        invariant log == old(log) && tracking == old(tracking) && resetOnEnter == old(resetOnEnter)
      {
        var (key, value) := current[i];
        ApplyPrefixStep(start, current, i);
        AddValue(key, value);
        i := i + 1;
      }
      assert current[..i] == current;
      ReplaySnoc(log, current);
      log := log + [current];
    }

    /** One iteration of the loop in `update`. */
    method AddValue(key: string, value: Metric)
      modifies this
      ensures State() == Step(old(State()), key, value)
      ensures log == old(log) && tracking == old(tracking) && resetOnEnter == old(resetOnEnter)
    {
      if key !in history {
        historyOrder := historyOrder + [key];
        history := history[key := []];
      }
      history := history[key := history[key] + [value]];
      if value.Some? {
        if key !in totals {
          totalsOrder := totalsOrder + [key];
          totals := totals[key := 0];
        }
        totals := totals[key := totals[key] + value.value];
      }
    }

    /** `record`: the report of `totals` in insertion order; the state is not touched. */
    method Record() returns (report: string)
      requires Valid()
      ensures report == Report(State())
    {
      ReplayTotalsKeys(State(), log);
      var entries := RecordEntries();
      report := "Totals: " + entries + "\n";
    }

    /** The loop of `record`: one `key = value` entry per total, in insertion order. */
    method RecordEntries() returns (entries: string)
      requires forall i :: 0 <= i < |totalsOrder| ==> totalsOrder[i] in totals
      ensures entries == Entries(State(), totalsOrder)
    {
      entries := "";
      var i := 0;
      while i < |totalsOrder|
        invariant 0 <= i <= |totalsOrder|
        invariant entries == Entries(State(), totalsOrder[..i])
      {
        var key := totalsOrder[i];
        EntriesPrefixStep(State(), totalsOrder, i);
        entries := entries + Entry(key, totals[key]);
        i := i + 1;
      }
      assert totalsOrder[..i] == totalsOrder;
    }

    /** `update_and_record(**current)`: `update`, then `record` of the new state. */
    method UpdateAndRecord(current: Kwargs) returns (report: string)
      requires Valid()
      modifies this
      ensures Valid() && log == old(log) + [current]
      ensures State() == Apply(old(State()), current)
      ensures report == Report(State())
      ensures tracking == old(tracking) && resetOnEnter == old(resetOnEnter)
    {
      Update(current);
      report := Record();
    }
  }

  /**
   * The timing tracker: a base tracker plus the clock reading of the last
   * update (or reset).  `now` parameters are the readings of the clock.
   */
  class TimingTracker {
    const base: DevTracker
    var timeLast: int
    /** The clock reading at the last reset. */
    ghost var clockAtReset: int

    /**
     * Beyond the base invariant: one `time` entry per update since the last
     * reset, and the deltas telescope, so `totals["time"]` is the last
     * reading minus the reading at the reset.
     */
    ghost predicate Valid()
      reads this, base
    {
      && base.Valid()
      && |Hist(base.State(), TimeKey)| == |base.log|
      && Tot(base.State(), TimeKey) == timeLast - clockAtReset
    }

    constructor (now: int, dev: Device? := null, resetOnEnter: bool := true)
      modifies dev
      ensures Valid() && fresh(base)
      ensures base.State() == Empty && base.log == [] && timeLast == now
      ensures base.resetOnEnter == resetOnEnter && !base.tracking
      ensures dev != null ==> dev.tracker == Some(TimingRef(this))
    {
      base := new DevTracker(resetOnEnter := resetOnEnter);
      timeLast := now;
      clockAtReset := now;
      new;
      if dev != null {
        dev.tracker := Some(TimingRef(this));
      }
    }

    /** `reset`: the base reset, and the clock baseline restarts at `now`. */
    method Reset(now: int)
      requires Valid()
      modifies this, base
      ensures Valid() && base.State() == Empty && base.log == []
      ensures timeLast == now && clockAtReset == now
      ensures base.tracking == old(base.tracking) && base.resetOnEnter == old(base.resetOnEnter)
    {
      base.Reset();
      timeLast := now;
      clockAtReset := now;
    }

    /**
     * `update(**current)`: set `current["time"]` to the time since the last
     * update or reset, make `now` the new baseline, then the base update.
     */
    method Update(now: int, current: Kwargs)
      requires Valid() && DistinctKeys(current)
      modifies this, base
      ensures Valid() && timeLast == now && clockAtReset == old(clockAtReset)
      ensures base.State() == Apply(old(base.State()), SetKey(current, TimeKey, Some(now - old(timeLast))))
      ensures Hist(base.State(), TimeKey) == Hist(old(base.State()), TimeKey) + [Some(now - old(timeLast))]
      ensures base.log == old(base.log) + [SetKey(current, TimeKey, Some(now - old(timeLast)))]
      ensures base.tracking == old(base.tracking) && base.resetOnEnter == old(base.resetOnEnter)
    {
      ghost var a, n, last := base.State(), |base.log|, timeLast;
      var injected := SetKey(current, TimeKey, Some(now - timeLast));
      timeLast := now;
      base.Update(injected);
      TimedUpdateTelescopes(a, current, n, last, now, clockAtReset);
    }

    /** `__enter__`, where the reset it may do is the timing reset. */
    method Enter(now: int) returns (self: TimingTracker)
      requires Valid()
      modifies this, base
      ensures self == this && Valid() && base.tracking
      ensures base.resetOnEnter == old(base.resetOnEnter)
      ensures base.resetOnEnter ==> base.State() == Empty && base.log == [] && timeLast == now && clockAtReset == now
      ensures !base.resetOnEnter ==>
        && base.State() == old(base.State()) && base.log == old(base.log)
        && timeLast == old(timeLast) && clockAtReset == old(clockAtReset)
    {
      if base.resetOnEnter {
        Reset(now);
      }
      base.tracking := true;
      self := this;
    }

    method Exit(exc: Option<string>)
      requires Valid()
      modifies base
      ensures Valid() && !base.tracking
      ensures base.State() == old(base.State()) && base.log == old(base.log)
      ensures base.resetOnEnter == old(base.resetOnEnter)
    {
      base.Exit(exc);
    }

    method Record() returns (report: string)
      requires Valid()
      ensures report == Report(base.State())
    {
      report := base.Record();
    }

    /** `update_and_record(**current)`: the timing `update`, then `record`. */
    method UpdateAndRecord(now: int, current: Kwargs) returns (report: string)
      requires Valid() && DistinctKeys(current)
      modifies this, base
      ensures Valid() && timeLast == now
      ensures base.State() == Apply(old(base.State()), SetKey(current, TimeKey, Some(now - old(timeLast))))
      ensures base.log == old(base.log) + [SetKey(current, TimeKey, Some(now - old(timeLast)))] && clockAtReset == old(clockAtReset)
      ensures report == Report(base.State())
      ensures base.tracking == old(base.tracking) && base.resetOnEnter == old(base.resetOnEnter)
    {
      Update(now, current);
      report := Record();
    }
  }

  datatype Version = DefaultVersion | TimingVersion

  /** The version check of `track`: "timing" and "default" are known, anything else is an error naming it. */
  function ParseVersion(version: string): (r: Result<Version, string>)
    ensures r == Success(TimingVersion) <==> version == "timing"
    ensures r == Success(DefaultVersion) <==> version == "default"
    ensures r.Failure? ==> |r.error| >= 8 + |version| && r.error[..8] == "version " && r.error[8..8 + |version|] == version
  {
    if version == "timing" then Success(TimingVersion)
    else if version == "default" then Success(DefaultVersion)
    else Failure("version " + version + " supplied to track. Current options are `timing` and `default`.")
  }

  /** `track(dev, version, reset_on_enter=...)`; the clock reading `now` is used only to start a timing tracker. */
  method Track(dev: Device?, now: int, version: string := "default", resetOnEnter: bool := true) returns (r: Result<TrackerRef, string>)
    modifies dev
    ensures ParseVersion(version).Failure? ==> r == Failure(ParseVersion(version).error)
    ensures ParseVersion(version).Failure? && dev != null ==> dev.tracker == old(dev.tracker)
    ensures version == "timing" ==> r.Success? && r.value.TimingRef?
    ensures version == "default" ==> r.Success? && r.value.DefaultRef?
    ensures r.Success? && r.value.TimingRef? ==>
      var t := r.value.timing;
      fresh(t) && fresh(t.base) && t.Valid() && t.base.State() == Empty && t.timeLast == now
        && t.base.resetOnEnter == resetOnEnter && !t.base.tracking
    ensures r.Success? && r.value.DefaultRef? ==>
      var t := r.value.tracker;
      fresh(t) && t.Valid() && t.State() == Empty && t.resetOnEnter == resetOnEnter && !t.tracking
    ensures r.Success? && dev != null ==> dev.tracker == Some(r.value)
  {
    match ParseVersion(version)
    case Success(TimingVersion) =>
      var t := new TimingTracker(now, dev, resetOnEnter);
      r := Success(TimingRef(t));
    case Success(DefaultVersion) =>
      var t := new DevTracker(dev, resetOnEnter);
      r := Success(DefaultRef(t));
    case Failure(msg) =>
      r := Failure(msg);
  }
}
