# Device execution tracker — a Dafny model

This project models PennyLane's device execution tracker
(`pennylane/device_tracker.py`). A tracker attaches itself to a device. Each time
the device calls `update(**metrics)`, the tracker appends every supplied value to
`history[name]` and adds every value that is not `None` to `totals[name]`.
`record` renders `totals` as one line of text. A `with` block around the work turns
the `tracking` flag on and off, and clears the state on entry when
`reset_on_enter` is set. The timing tracker adds a `time` metric to every update:
the clock delta since the previous update or reset. `track` picks one of the two
trackers by name.

Layout, one module per component:

- `wrappers.dfy` (`Wrappers`): `Option` (Python's `None`) and `Result` (a raised error).
- `accumulator.dfy` (`Accumulator`): the tracker's two dictionaries as a value
  `Accum`, with the iteration order of each `defaultdict`. `Step` is one iteration
  of the loop in `update` and `Apply` is the whole loop. `Replay` is the state after
  a reset followed by a list of updates. `Inv` is the invariant that ties `totals`
  to `history`.
- `report.dfy` (`Recording`): the text `record` prints (`Report`), Python's
  `str` of an int, and a reader for the report (`ParseReport`) that proves the
  text determines the totals.
- `timing.dfy` (`Timing`): the dict assignment `current["time"] = now - last`
  as an operation on the keyword arguments (`SetKey`).
- `device_tracker.dfy` (`DeviceTracker`): the classes `DevTracker` and
  `TimingTracker`, the device's `tracker` slot, and `track`.
- `sessions.dfy` (`Sessions`): the usage shown in the `track` docstring, run
  through the class contracts.

Modelling decisions:

- Metric values are `Option<int>`. The keyword arguments of one call are a
  sequence of (name, value) pairs in argument order.
- Clock readings (`time.time()`) are integer `now` parameters on the timing
  tracker's constructor, `Reset`, `Enter`, `Update` and `UpdateAndRecord`, and on
  `Track`, which uses the reading only for `"timing"` (to build the timing tracker);
  the `"default"` path reads no clock.
- `record` returns the text it would print. Its loop over `totals.items()` is the
  method `RecordEntries`.
- The default arguments are Dafny default parameters: `dev` defaults to no device and
  `reset_on_enter` to true on both constructors and on `Track`, and `version` to
  `"default"` on `Track`.
- Python subclassing is modelled by composition: `TimingTracker` holds a `base: DevTracker` and overrides `Update`
  and `Reset`. Its `Enter` performs the reset of `__enter__` through the timing
  `Reset`, as Python's dynamic dispatch does, so entering also restarts the clock.
- Each `DevTracker` carries a ghost `log` of the updates since the last reset.
  `Valid()` states that the dictionaries are `Replay(log)`, and the lemmas about
  `Replay` give the invariant: `totals[k]` is the sum of the non-`None` entries of
  `history[k]`, and `len(history[k])` counts the updates that supplied `k`.
- `TimingTracker.Valid()` adds two facts. There is one `time` entry per update
  since the reset. `totals["time"]` equals the last clock reading minus the reading
  at the reset, because the deltas telescope.

Features the code does not have:

- The code keeps no `latest` map and takes no `callback` or `persistent` option.
- The code performs no capability check on the device. `dev.tracker` is set
  whenever a device is given.

The test file `tests/test_device_tracker.py` exercises a different class,
`DefaultTracker`, which has those features. It is not part of this model.

## Model

| member | source | states |
|---|---|---|
| `Accumulator.Step` | pennylane/device_tracker.py:139-144 | one loop iteration: `history[key]` ends with the new value, `totals[key]` grows by the value (0 for `None`), and `key` is in `totals` afterwards iff it was before or the value is not `None` |
| `Accumulator.StepFacts` | pennylane/device_tracker.py:139-144 | the whole effect of one iteration: a new key is appended to each insertion order on first use (for `totals`, on its first non-`None` value), no other key's history or total changes, and a `None` value leaves `totals` untouched |
| `Accumulator.Apply` | pennylane/device_tracker.py:135-144 | the loop over the keyword arguments never moves a key: the old insertion orders of `totals` and `history` are prefixes of the new ones |
| `Accumulator.StepPreservesInv` | pennylane/device_tracker.py:138-144 | one loop iteration of `update` keeps both key orders duplicate-free and complete, keeps every history non-empty, and keeps `totals[k]` present exactly when `history[k]` holds a non-`None` value and equal to the sum of those values |
| `Accumulator.ApplyHistory` | pennylane/device_tracker.py:135-140 | after `update`, `history[k]` is the old history followed by exactly the values supplied for `k`, `None` included, in argument order; keys not supplied keep their history |
| `Accumulator.ApplyTotals` | pennylane/device_tracker.py:142-144 | after `update`, `totals[k]` is the old total (0 if absent) plus the sum of the non-`None` values supplied for `k`; the entry exists afterwards iff it existed or some supplied value was not `None` |
| `Accumulator.ApplyPreservesInv` | pennylane/device_tracker.py:135-144 | `update` preserves the invariant linking `totals` to `history` |
| `Accumulator.ApplyNoneKeepsTotals` | pennylane/device_tracker.py:143-144 | an update that supplies only `None` values leaves `totals` and its key order unchanged and creates no total |
| `Accumulator.ReplayInv` | pennylane/device_tracker.py:135-149 | after a reset and any sequence of updates, the invariant holds |
| `Accumulator.ReplayContents` | pennylane/device_tracker.py:135-149 | after a reset and a sequence of updates, `history[k]` is every value supplied for `k` in call order, and `totals[k]` is the sum of the non-`None` ones |
| `Accumulator.ReplayHistoryLength` | pennylane/device_tracker.py:135-149 | when every update came from a keyword dict, `len(history[k])` is the number of updates since the last reset that supplied `k` |
| `Recording.IntToString` | pennylane/device_tracker.py:157 | Python's `str` of an int: non-empty, starting with `-` iff the number is negative, all decimal digits after the sign, and no leading zero (a first digit `0` only for 0 itself) |
| `Recording.IntToStringRoundTrip` | pennylane/device_tracker.py:157 | the decimal text of any integer (a `-` sign for negatives) reads back as that integer |
| `Recording.Report` | pennylane/device_tracker.py:151-158 | the report starts with `"Totals: "` and ends with the newline of the final `print()`; with no totals it is exactly `"Totals: \n"` |
| `Recording.ReportRoundTrip` | pennylane/device_tracker.py:151-158 | the report is `"Totals: "`, one `k = v` plus tab per total in insertion order, and a newline; when no key contains a tab, reading it back gives exactly the (key, total) pairs in that order |
| `Recording.TabKeyAmbiguous` | pennylane/device_tracker.py:157 | a key holding a tab is ambiguous in the report: the single entry of key `x = 1<tab>y` with total 2 is the same text as the entries `x = 1` and `y = 2` |
| `Recording.NoneUpdateKeepsReport` | pennylane/device_tracker.py:142-158 | an update supplying only `None` values does not change the report |
| `Recording.EmptyReport` | pennylane/device_tracker.py:146-158 | a freshly reset tracker reports `"Totals: \n"` |
| `Recording.TwoKeyReport` | pennylane/device_tracker.py:135-158 | updating a fresh tracker with `a=1, b=2` yields the report `"Totals: a = 1\tb = 2\t\n"` |
| `Timing.SetKey` | pennylane/device_tracker.py:166 | `current["time"] = ...` on the keyword dict: an existing `time` key keeps its position, otherwise `time` is appended after every other key |
| `Timing.SetKeyKeys` | pennylane/device_tracker.py:166 | setting a key on keyword arguments with distinct keys keeps them distinct |
| `Timing.SetKeyValues` | pennylane/device_tracker.py:166 | after `current["time"] = d`, `time` is supplied exactly once with value `d`, overriding any caller value, and every other key is supplied as before |
| `Timing.TimedUpdate` | pennylane/device_tracker.py:163-169 | a timed update appends exactly the measured delta to `history["time"]` and adds it to `totals["time"]`; every other key is updated as by the base tracker |
| `Timing.TimedUpdateTelescopes` | pennylane/device_tracker.py:163-169 | if `time` has `n` entries totalling `last - start` before a timed update at `now`, it has `n + 1` entries totalling `now - start` after it |
| `DeviceTracker.DevTracker.constructor` | pennylane/device_tracker.py:103-113 | a new tracker has empty `totals` and `history`, is not tracking, stores `reset_on_enter` (true by default), and becomes the device's `tracker` if a device is given (none by default) |
| `DeviceTracker.DevTracker.Enter` | pennylane/device_tracker.py:115-123 | entering returns the same tracker and sets `tracking`; it clears the state iff `reset_on_enter`, and otherwise keeps it; `reset_on_enter` is untouched |
| `DeviceTracker.DevTracker.Exit` | pennylane/device_tracker.py:125-129 | exiting clears `tracking`, whatever exception ended the scope, and changes nothing else |
| `DeviceTracker.DevTracker.Reset` | pennylane/device_tracker.py:146-149 | `totals` and `history` become empty; `tracking` and `reset_on_enter` are untouched |
| `DeviceTracker.DevTracker.Update` | pennylane/device_tracker.py:135-144 | the loop over the keyword arguments leaves exactly `Apply(old state, current)` and records the call in the log since the last reset |
| `DeviceTracker.DevTracker.AddValue` | pennylane/device_tracker.py:139-144 | one loop iteration: append to `history[key]`, creating the entry on first use, and add a non-`None` value to `totals[key]` starting from 0 |
| `DeviceTracker.DevTracker.Record` | pennylane/device_tracker.py:151-158 | the printed text is exactly `Report(state)`, and no state changes |
| `DeviceTracker.DevTracker.RecordEntries` | pennylane/device_tracker.py:155-157 | the loop over `totals.items()` produces one `k = v` entry plus tab per total, in insertion order |
| `DeviceTracker.DevTracker.UpdateAndRecord` | pennylane/device_tracker.py:131-133 | one `update` and then one `record` of the updated state |
| `DeviceTracker.TimingTracker.constructor` | pennylane/device_tracker.py:171-173 | the base tracker starts empty and not tracking, the clock baseline is the construction time, and the device's `tracker` is this timing tracker |
| `DeviceTracker.TimingTracker.Reset` | pennylane/device_tracker.py:171-173 | the base state is cleared and the clock baseline becomes `now` |
| `DeviceTracker.TimingTracker.Update` | pennylane/device_tracker.py:163-169 | the base update receives the arguments with `time` set to `now - last`; `last` becomes `now`; afterwards `totals["time"]` still equals the last reading minus the reading at the reset |
| `DeviceTracker.TimingTracker.Enter` | pennylane/device_tracker.py:115-123 | entering sets `tracking`; with `reset_on_enter` it clears the state and the log and restarts the clock; otherwise the state, the log and the clock baseline are kept |
| `DeviceTracker.TimingTracker.Exit` | pennylane/device_tracker.py:125-129 | exiting clears `tracking` and changes nothing else |
| `DeviceTracker.TimingTracker.Record` | pennylane/device_tracker.py:151-158 | the report of the base state |
| `DeviceTracker.TimingTracker.UpdateAndRecord` | pennylane/device_tracker.py:131-133 | the timing `update`, which logs the arguments with `time` set, then `record` of the updated state |
| `DeviceTracker.ParseVersion` | pennylane/device_tracker.py:87-95 | `"timing"` and `"default"` are accepted, each iff the version is that string; any other version is an error whose message starts `"version "` followed by the supplied version |
| `DeviceTracker.Track` | pennylane/device_tracker.py:20-95 | `version` defaults to `"default"` and `reset_on_enter` to true; `"timing"` builds a new `TimingTracker`, `"default"` a new `DevTracker`, each with the given `reset_on_enter` and attached to the device; any other version returns the error and leaves the device untouched |
| `Sessions.ReusedTrackerAccumulates` | pennylane/device_tracker.py:76-84 | with `reset_on_enter=False`, one execution in each of two sessions gives `totals["executions"] == 2` |
| `Sessions.TrackWithDefaults` | pennylane/device_tracker.py:20-50 | `track(dev)` with every default, as the docstring's `qml.track(circuit.device)`, gives a default tracker that resets on entry and is the device's `tracker` |
| `Sessions.ResettingTrackerForgets` | pennylane/device_tracker.py:115-123 | with `reset_on_enter=True`, re-entering a used tracker leaves `totals` empty |
| `Sessions.TimingSpansClock` | pennylane/device_tracker.py:163-173 | a timing tracker entered at clock `r` and updated at `c1` and then `c2` holds two `time` entries totalling `c2 - r` |

## Left out

- Printing: `record` returns its text instead of writing it to standard output.
- The clock: `time.time()` is an integer parameter. Floating-point durations and their rounding are not modelled.
- Non-numeric metric values, such as strings: `totals[key] += value` would raise on them, and values are restricted to integers and `None`.
- Aliasing of the dictionaries: `reset` binds fresh dictionaries. A caller still holding the old `totals` or `history` object keeps its old contents. The model treats both as values.
- Reads through the `defaultdict`s outside the tracker (`tracker.totals["x"]` inserts `x`): `Hist` and `Tot` give the value read, without the insertion.
- Keyword arguments that `track` forwards other than `reset_on_enter` (Python raises `TypeError` for an unknown one).
- The device, QNode execution, and the decision of when a device calls `update_and_record`: only the device's `tracker` attribute is modelled.
- Exception propagation through the `with` block: `Exit` takes the exception as a parameter and, like `__exit__`, only clears `tracking`.
- `QuantumFunctionError` from `track` is modelled as `Failure` carrying its message.
- `DeviceTracker.TimingTracker.Update` requires distinct keys in `current`. Python keyword arguments always form a dict, so the source's callers cannot do otherwise.
- `Recording.ReportRoundTrip` requires that no key contains a tab. A tab inside a key reads as the end of an entry, so the printed text is ambiguous (`Recording.TabKeyAmbiguous`) and the round trip cannot hold for it. Keys with spaces are covered: the reader splits each entry at its last space, and the value's text holds none.
- `Accumulator.Apply` only states that existing keys keep their position. The exact position of each new key is stated one iteration at a time, by `Accumulator.StepFacts` and `DeviceTracker.DevTracker.AddValue`.
