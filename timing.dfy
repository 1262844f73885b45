/**
 * What the timing tracker does to the keyword arguments of an update before
 * handing them on: `current["time"] = now - last`, a Python dict assignment.
 */
module Timing {
  import opened Wrappers
  import opened Accumulator

  /** The name of the metric the timing tracker injects. */
  const TimeKey: string := "time"

  /** Every occurrence of key `k` rebound to `v`, positions kept. */
  function Rebind(kw: Kwargs, k: string, v: Metric): (r: Kwargs)
    ensures |r| == |kw|
    ensures forall i :: 0 <= i < |kw| ==> r[i] == if kw[i].0 == k then (k, v) else kw[i]
  {
    seq(|kw|, i requires 0 <= i < |kw| => if kw[i].0 == k then (k, v) else kw[i])
  }

  /**
   * `current[k] = v` on a keyword dict: an existing key keeps its position
   * and takes the new value; a new key goes at the end.
   */
  function SetKey(kw: Kwargs, k: string, v: Metric): (r: Kwargs)
    ensures KeysOf(r) == if k in KeysOf(kw) then KeysOf(kw) else KeysOf(kw) + [k]
  {
    if k in KeysOf(kw) then Rebind(kw, k, v) else kw + [(k, v)]
  }

  lemma {:induction false} RebindValues(kw: Kwargs, k: string, v: Metric, k': string)
    ensures k' != k ==> ValuesOf(Rebind(kw, k, v), k') == ValuesOf(kw, k')
    ensures k' == k ==> |ValuesOf(Rebind(kw, k, v), k)| == |ValuesOf(kw, k)|
    ensures k' == k ==> forall j :: 0 <= j < |ValuesOf(Rebind(kw, k, v), k)| ==> ValuesOf(Rebind(kw, k, v), k)[j] == v
    decreases |kw|
  {
    if kw != [] {
      var n := |kw| - 1;
      assert Rebind(kw, k, v)[..n] == Rebind(kw[..n], k, v);
      RebindValues(kw[..n], k, v, k');
    }
  }

  lemma {:induction false} AppendValues(kw: Kwargs, k: string, v: Metric, k': string)
    ensures ValuesOf(kw + [(k, v)], k') == ValuesOf(kw, k') + (if k' == k then [v] else [])
  {
    assert (kw + [(k, v)])[..|kw|] == kw;
  }

  /** Setting a key on keyword arguments with distinct keys keeps them distinct. */
  lemma SetKeyKeys(kw: Kwargs, k: string, v: Metric)
    requires DistinctKeys(kw)
    ensures DistinctKeys(SetKey(kw, k, v))
  {
  }

  /**
   * After `current[k] = v` on a dict, `k` is supplied exactly once with value
   * `v`, and every other key is supplied exactly as before.
   */
  lemma SetKeyValues(kw: Kwargs, k: string, v: Metric, k': string)
    requires DistinctKeys(kw)
    ensures ValuesOf(SetKey(kw, k, v), k') == if k' == k then [v] else ValuesOf(kw, k')
  {
    ValuesOfDistinct(kw, k);
    if k in KeysOf(kw) {
      RebindValues(kw, k, v, k');
    } else {
      AppendValues(kw, k, v, k');
    }
  }

  /**
   * One timed update: `history["time"]` gains exactly the measured delta and
   * `totals["time"]` grows by it, whatever the caller supplied as `time`;
   * every other key is updated as by the base tracker.
   */
  lemma TimedUpdate(a: Accum, kw: Kwargs, delta: int, k: string)
    requires DistinctKeys(kw)
    ensures Hist(Apply(a, SetKey(kw, TimeKey, Some(delta))), TimeKey) == Hist(a, TimeKey) + [Some(delta)]
    ensures Tot(Apply(a, SetKey(kw, TimeKey, Some(delta))), TimeKey) == Tot(a, TimeKey) + delta
    ensures k != TimeKey ==> Hist(Apply(a, SetKey(kw, TimeKey, Some(delta))), k) == Hist(a, k) + ValuesOf(kw, k)
    ensures k != TimeKey ==> Tot(Apply(a, SetKey(kw, TimeKey, Some(delta))), k) == Tot(a, k) + SumSome(ValuesOf(kw, k))
  {
    var injected := SetKey(kw, TimeKey, Some(delta));
    SetKeyValues(kw, TimeKey, Some(delta), TimeKey);
    SetKeyValues(kw, TimeKey, Some(delta), k);
    ApplyHistory(a, injected, TimeKey);
    ApplyTotals(a, injected, TimeKey);
    ApplyHistory(a, injected, k);
    ApplyTotals(a, injected, k);
    assert SumSome([Some(delta)]) == delta by {
      assert [Some(delta)][..0] == [];
    }
  }

  /**
   * The deltas telescope: if `time` has `n` entries totalling `last - start`
   * before a timed update at clock `now`, it has `n + 1` totalling `now - start` after.
   */
  lemma TimedUpdateTelescopes(a: Accum, kw: Kwargs, n: nat, last: int, now: int, start: int)
    requires DistinctKeys(kw)
    requires |Hist(a, TimeKey)| == n && Tot(a, TimeKey) == last - start
    ensures var b := Apply(a, SetKey(kw, TimeKey, Some(now - last)));
      && Hist(b, TimeKey) == Hist(a, TimeKey) + [Some(now - last)]
      && |Hist(b, TimeKey)| == n + 1
      && Tot(b, TimeKey) == now - start
  {
    TimedUpdate(a, kw, now - last, TimeKey);
  }
}
