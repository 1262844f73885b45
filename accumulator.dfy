/**
 * The accumulator state of a device tracker as a value: the running `totals`,
 * the per-metric `history`, and the insertion order of both dictionaries
 * (both are Python `defaultdict`s, which iterate in first-insertion order).
 */
module Accumulator {
  import opened Wrappers

  /** A metric value as `update` receives it: an integer or Python's `None`. */
  type Metric = Option<int>

  /** The keyword arguments of one `update` call, in argument order. */
  type Kwargs = seq<(string, Metric)>

  datatype Accum = Accum(
    totalsOrder: seq<string>,
    totals: map<string, int>,
    historyOrder: seq<string>,
    history: map<string, seq<Metric>>)

  /** The state right after `reset`: two fresh, empty defaultdicts. */
  const Empty: Accum := Accum([], map[], [], map[])

  /** `history[k]` read through the defaultdict: a missing key reads as `[]`. */
  function Hist(a: Accum, k: string): seq<Metric>
  {
    if k in a.history then a.history[k] else []
  }

  /** `totals[k]` read through the defaultdict: a missing key reads as `0`. */
  function Tot(a: Accum, k: string): int
  {
    if k in a.totals then a.totals[k] else 0
  }

  /** What a value contributes to a total: `None` contributes nothing. */
  function Contribution(v: Metric): int
  {
    match v
    case Some(x) => x
    case None => 0
  }

  /** Sum of the non-`None` entries of a history. */
  function SumSome(h: seq<Metric>): int
  {
    if h == [] then 0 else SumSome(h[..|h| - 1]) + Contribution(h[|h| - 1])
  }

  predicate HasSome(h: seq<Metric>)
  {
    exists i :: 0 <= i < |h| && h[i].Some?
  }

  predicate Distinct(s: seq<string>)
  {
    forall i, j :: 0 <= i < j < |s| ==> s[i] != s[j]
  }

  function KeysOf(kw: Kwargs): (keys: seq<string>)
    ensures |keys| == |kw|
    ensures forall i :: 0 <= i < |kw| ==> keys[i] == kw[i].0
  {
    seq(|kw|, i requires 0 <= i < |kw| => kw[i].0)
  }

  /** Keyword arguments come from a Python dict, so their keys are distinct. */
  predicate DistinctKeys(kw: Kwargs)
  {
    Distinct(KeysOf(kw))
  }

  /** The values an update supplies for key `k`, in argument order. */
  function ValuesOf(kw: Kwargs, k: string): seq<Metric>
  {
    if kw == [] then []
    else
      var n := |kw| - 1;
      ValuesOf(kw[..n], k) + (if kw[n].0 == k then [kw[n].1] else [])
  }

  /** An iteration order lists each key of its dictionary exactly once. */
  ghost predicate OrderOk(order: seq<string>, keys: set<string>)
  {
    Distinct(order) && forall k :: k in order <==> k in keys
  }

  /**
   * Every history is non-empty; a key has a total exactly when its history
   * holds a non-`None` value, and that total is the sum of the non-`None`
   * values of its history.
   */
  ghost predicate SumsOk(a: Accum)
  {
    && (forall k :: k in a.history ==> |a.history[k]| > 0)
    && (forall k :: k in a.history ==> (k in a.totals <==> HasSome(a.history[k])))
    && (forall k :: k in a.totals ==> k in a.history && a.totals[k] == SumSome(a.history[k]))
  }

  /** The invariant of the accumulator. */
  ghost predicate Inv(a: Accum)
  {
    && OrderOk(a.totalsOrder, a.totals.Keys)
    && OrderOk(a.historyOrder, a.history.Keys)
    && SumsOk(a)
  }

  /**
   * One iteration of the loop in `update`: append the value to `history[key]`
   * (creating the entry on first use) and, unless it is `None`, add it to
   * `totals[key]` (creating the entry with 0 on first use).
   */
  function Step(a: Accum, key: string, value: Metric): (r: Accum)
    ensures Hist(r, key) == Hist(a, key) + [value]
    ensures Tot(r, key) == Tot(a, key) + Contribution(value)
    ensures key in r.totals <==> key in a.totals || value.Some?
  {
    var hOrder := if key in a.history then a.historyOrder else a.historyOrder + [key];
    var h := a.history[key := Hist(a, key) + [value]];
    match value
    case None => Accum(a.totalsOrder, a.totals, hOrder, h)
    case Some(x) =>
      var tOrder := if key in a.totals then a.totalsOrder else a.totalsOrder + [key];
      Accum(tOrder, a.totals[key := Tot(a, key) + x], hOrder, h)
  }

  /** `update(**current)`: the loop over the keyword arguments in order. */
  function Apply(a: Accum, kw: Kwargs): (r: Accum)
    ensures a.totalsOrder <= r.totalsOrder && a.historyOrder <= r.historyOrder
  {
    if kw == [] then a
    else
      var n := |kw| - 1;
      StepFacts(Apply(a, kw[..n]), kw[n].0, kw[n].1);
      Step(Apply(a, kw[..n]), kw[n].0, kw[n].1)
  }

  /** The state after a `reset` followed by the updates of `log`, in order. */
  function Replay(log: seq<Kwargs>): Accum
  {
    if log == [] then Empty else Apply(Replay(log[..|log| - 1]), log[|log| - 1])
  }

  /** All values supplied for `k` by the updates of `log`, in call order. */
  function ValuesAcross(log: seq<Kwargs>, k: string): seq<Metric>
  {
    if log == [] then []
    else ValuesAcross(log[..|log| - 1], k) + ValuesOf(log[|log| - 1], k)
  }

  /** The number of updates in `log` that supplied key `k`. */
  function Count(log: seq<Kwargs>, k: string): nat
  {
    if log == [] then 0
    else Count(log[..|log| - 1], k) + (if k in KeysOf(log[|log| - 1]) then 1 else 0)
  }

  // ------------------------------------------------------------------
  // Sums

  lemma {:induction false} SumSomeConcat(x: seq<Metric>, y: seq<Metric>)
    ensures SumSome(x + y) == SumSome(x) + SumSome(y)
    decreases |y|
  {
    if y != [] {
      var n := |y| - 1;
      assert (x + y)[..|x + y| - 1] == x + y[..n];
      SumSomeConcat(x, y[..n]);
    } else {
      assert x + y == x;
    }
  }

  lemma {:induction false} HasSomeConcat(x: seq<Metric>, y: seq<Metric>)
    ensures HasSome(x + y) <==> HasSome(x) || HasSome(y)
  {
    if HasSome(x + y) {
      var i :| 0 <= i < |x + y| && (x + y)[i].Some?;
      if i < |x| { assert x[i].Some?; } else { assert y[i - |x|].Some?; }
    }
    if HasSome(x) {
      var i :| 0 <= i < |x| && x[i].Some?;
      assert (x + y)[i].Some?;
    }
    if HasSome(y) {
      var i :| 0 <= i < |y| && y[i].Some?;
      assert (x + y)[|x| + i].Some?;
    }
  }

  lemma {:induction false} NoSomeSumsToZero(h: seq<Metric>)
    requires !HasSome(h)
    ensures SumSome(h) == 0
    decreases |h|
  {
    if h != [] {
      var n := |h| - 1;
      assert h[n].None?;
      NoSomeSumsToZero(h[..n]);
    }
  }

  // ------------------------------------------------------------------
  // One step

  /** What one loop iteration does to each dictionary, key by key. */
  lemma StepFacts(a: Accum, key: string, value: Metric)
    ensures var r := Step(a, key, value);
      && r.history.Keys == a.history.Keys + {key}
      && r.history[key] == Hist(a, key) + [value]
      && (forall k :: k in a.history && k != key ==> r.history[k] == a.history[k])
      && r.historyOrder == (if key in a.history then a.historyOrder else a.historyOrder + [key])
      && r.totals.Keys == (if value.Some? then a.totals.Keys + {key} else a.totals.Keys)
      && (value.Some? ==> r.totals[key] == Tot(a, key) + Contribution(value))
      && (forall k :: k in a.totals && k != key ==> r.totals[k] == a.totals[k])
      && (value.None? ==> r.totals == a.totals)
      && r.totalsOrder == (if value.Some? && key !in a.totals then a.totalsOrder + [key] else a.totalsOrder)
  {
  }

  lemma OrderSnoc(order: seq<string>, keys: set<string>, key: string)
    requires OrderOk(order, keys)
    ensures OrderOk(if key in keys then order else order + [key], keys + {key})
  {
    if key !in keys {
      assert key !in order;
      var o := order + [key];
      forall i, j | 0 <= i < j < |o| ensures o[i] != o[j] {
        if j == |order| { assert o[i] in order; }
      }
    } else {
      assert keys + {key} == keys;
    }
  }

  /** What one loop iteration does to the history and the total of its key. */
  lemma StepAtKey(a: Accum, key: string, value: Metric)
    requires SumsOk(a)
    ensures var r := Step(a, key, value);
      && r.history[key] == Hist(a, key) + [value]
      && |r.history[key]| > 0
      && (key in r.totals <==> HasSome(r.history[key]))
      && (key in r.totals ==> r.totals[key] == SumSome(r.history[key]))
  {
    StepFacts(a, key, value);
    var old_h := Hist(a, key);
    HasSomeConcat(old_h, [value]);
    SumSomeConcat(old_h, [value]);
    assert HasSome([value]) <==> value.Some? by {
      if value.Some? { assert [value][0].Some?; }
    }
    assert SumSome([value]) == Contribution(value) by {
      assert [value][..0] == [];
    }
    if key !in a.totals {
      assert !HasSome(old_h);
      NoSomeSumsToZero(old_h);
    }
  }

  lemma StepKeepsSums(a: Accum, key: string, value: Metric)
    requires SumsOk(a)
    ensures SumsOk(Step(a, key, value))
  {
    var r := Step(a, key, value);
    StepFacts(a, key, value);
    StepAtKey(a, key, value);
    forall k | k in r.history && k != key
      ensures k in a.history && r.history[k] == a.history[k]
    {
    }
    forall k | k != key
      ensures k in r.totals <==> k in a.totals
    {
    }
    forall k | k in r.totals && k != key
      ensures r.totals[k] == a.totals[k]
    {
    }
  }

  /** One loop iteration keeps the accumulator invariant. */
  lemma StepPreservesInv(a: Accum, key: string, value: Metric)
    requires Inv(a)
    ensures Inv(Step(a, key, value))
  {
    StepFacts(a, key, value);
    OrderSnoc(a.historyOrder, a.history.Keys, key);
    if value.Some? {
      OrderSnoc(a.totalsOrder, a.totals.Keys, key);
    }
    StepKeepsSums(a, key, value);
  }

  // ------------------------------------------------------------------
  // One update call

  /**
   * `update` appends each supplied value, `None` included, to the end of
   * `history[k]` in argument order; keys not supplied keep their history.
   */
  lemma {:induction false} ApplyHistory(a: Accum, kw: Kwargs, k: string)
    ensures Hist(Apply(a, kw), k) == Hist(a, k) + ValuesOf(kw, k)
    decreases |kw|
  {
    if kw == [] {
      assert Hist(a, k) + [] == Hist(a, k);
    } else {
      var n := |kw| - 1;
      ApplyHistory(a, kw[..n], k);
    }
  }

  /**
   * `update` adds every non-`None` supplied value to `totals[k]`, counting a
   * missing entry as 0, and creates the entry exactly when some supplied
   * value is not `None`.
   */
  lemma {:induction false} ApplyTotals(a: Accum, kw: Kwargs, k: string)
    ensures Tot(Apply(a, kw), k) == Tot(a, k) + SumSome(ValuesOf(kw, k))
    ensures k in Apply(a, kw).totals <==> k in a.totals || HasSome(ValuesOf(kw, k))
    decreases |kw|
  {
    if kw == [] {
      assert !HasSome([]);
    } else {
      var n := |kw| - 1;
      var vals := ValuesOf(kw[..n], k);
      var here: seq<Metric> := if kw[n].0 == k then [kw[n].1] else [];
      ApplyTotals(a, kw[..n], k);
      SumSomeConcat(vals, here);
      HasSomeConcat(vals, here);
      assert SumSome(here) == (if kw[n].0 == k then Contribution(kw[n].1) else 0) by {
        if kw[n].0 == k { assert here[..0] == []; }
      }
      assert HasSome(here) <==> kw[n].0 == k && kw[n].1.Some? by {
        if kw[n].0 == k && kw[n].1.Some? { assert here[0].Some?; }
      }
    }
  }

  /** `update` keeps the accumulator invariant. */
  lemma {:induction false} ApplyPreservesInv(a: Accum, kw: Kwargs)
    requires Inv(a)
    ensures Inv(Apply(a, kw))
    decreases |kw|
  {
    if kw != [] {
      var n := |kw| - 1;
      ApplyPreservesInv(a, kw[..n]);
      StepPreservesInv(Apply(a, kw[..n]), kw[n].0, kw[n].1);
    }
  }

  /** An update that supplies only `None` values leaves `totals` as it was. */
  lemma {:induction false} ApplyNoneKeepsTotals(a: Accum, kw: Kwargs)
    requires forall i :: 0 <= i < |kw| ==> kw[i].1.None?
    ensures Apply(a, kw).totals == a.totals
    ensures Apply(a, kw).totalsOrder == a.totalsOrder
    decreases |kw|
  {
    if kw != [] {
      ApplyNoneKeepsTotals(a, kw[..|kw| - 1]);
    }
  }

  /** With distinct keys, an update supplies a key at most once. */
  lemma {:induction false} ValuesOfDistinct(kw: Kwargs, k: string)
    requires DistinctKeys(kw)
    ensures |ValuesOf(kw, k)| == if k in KeysOf(kw) then 1 else 0
    decreases |kw|
  {
    if kw != [] {
      var n := |kw| - 1;
      assert KeysOf(kw[..n]) == KeysOf(kw)[..n];
      ValuesOfDistinct(kw[..n], k);
      assert KeysOf(kw) == KeysOf(kw[..n]) + [kw[n].0];
      if kw[n].0 == k {
        assert k !in KeysOf(kw[..n]);
      }
    }
  }

  // ------------------------------------------------------------------
  // Since the last reset

  /** The invariant holds after any sequence of updates since a reset. */
  lemma {:induction false} ReplayInv(log: seq<Kwargs>)
    ensures Inv(Replay(log))
    decreases |log|
  {
    if log != [] {
      ReplayInv(log[..|log| - 1]);
      ApplyPreservesInv(Replay(log[..|log| - 1]), log[|log| - 1]);
    }
  }

  /**
   * After the updates of `log` since a reset, `history[k]` lists every value
   * supplied for `k`, in call order, and `totals[k]` is the sum of the
   * non-`None` ones.
   */
  lemma {:induction false} ReplayContents(log: seq<Kwargs>, k: string)
    ensures Hist(Replay(log), k) == ValuesAcross(log, k)
    ensures Tot(Replay(log), k) == SumSome(ValuesAcross(log, k))
    decreases |log|
  {
    if log != [] {
      var prev := log[..|log| - 1];
      ReplayContents(prev, k);
      ApplyHistory(Replay(prev), log[|log| - 1], k);
      ApplyTotals(Replay(prev), log[|log| - 1], k);
      SumSomeConcat(ValuesAcross(prev, k), ValuesOf(log[|log| - 1], k));
    }
  }

  /**
   * When every update came from a dict, `len(history[k])` is the number of
   * updates since the last reset that supplied `k`.
   */
  lemma {:induction false} ReplayHistoryLength(log: seq<Kwargs>, k: string)
    requires forall i :: 0 <= i < |log| ==> DistinctKeys(log[i])
    ensures |Hist(Replay(log), k)| == Count(log, k)
    decreases |log|
  {
    if log != [] {
      var prev := log[..|log| - 1];
      ReplayHistoryLength(prev, k);
      ApplyHistory(Replay(prev), log[|log| - 1], k);
      ValuesOfDistinct(log[|log| - 1], k);
    }
  }

  /** Applying one more keyword argument is one more loop iteration. */
  lemma ApplyPrefixStep(a: Accum, kw: Kwargs, i: nat)
    requires i < |kw|
    ensures Apply(a, kw[..i + 1]) == Step(Apply(a, kw[..i]), kw[i].0, kw[i].1)
  {
    assert kw[..i + 1][..i] == kw[..i];
  }

  /** After any updates since a reset, every key of the totals order has a total. */
  lemma ReplayTotalsKeys(a: Accum, log: seq<Kwargs>)
    requires a == Replay(log)
    ensures forall i :: 0 <= i < |a.totalsOrder| ==> a.totalsOrder[i] in a.totals
  {
    ReplayInv(log);
  }

  /** Replaying one more update is applying it to the replayed state. */
  lemma ReplaySnoc(log: seq<Kwargs>, kw: Kwargs)
    ensures Replay(log + [kw]) == Apply(Replay(log), kw)
  {
    assert (log + [kw])[..|log|] == log;
  }
}
