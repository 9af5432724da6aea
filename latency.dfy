/**
 The metric set of the latency check: three vectors that share the `target`
 label.

 - `sparrow_latency_duration_seconds`, a gauge labelled by `target` and
   `status`: the latest duration of a target, per status;
 - `sparrow_latency_count`, a counter labelled by `target`: how many probes
   were recorded;
 - `sparrow_latency_duration`, a histogram labelled by `target`: every
   duration recorded.

 `RemoveObsolete` deletes with one label value on each vector, which matches
 nothing in the two-label gauge: the gauge series of a removed target stay.
 The model keeps that behaviour; `StatusGaugeSurvivesPrune` states it and
 `PruneByTarget` is the pruning that deletes them.
 */
module Latency {
  import opened Vectors
  import opened Obsolete

  const DurationName := "sparrow_latency_duration_seconds"
  const DurationLabels := ["target", "status"]
  const CountName := "sparrow_latency_count"
  const CountLabels := ["target"]
  const HistogramName := "sparrow_latency_duration"
  const HistogramLabels := ["target"]

  /**
   Every counter series has a histogram series under the same tuple, and the
   counter equals the number of observations in it: `Set` feeds both, and
   `RemoveObsolete` deletes from both.
   */
  ghost predicate CountMatchesHistogram(count: map<LabelValues, nat>, histogram: map<LabelValues, seq<real>>)
  {
    && count.Keys == histogram.Keys
    && forall lvs :: lvs in count ==> count[lvs] == |histogram[lvs]|
  }

  /**
   Every counter series has a gauge series of the same target, under some
   status: `Set` writes the gauge and the counter together, and
   `RemoveObsolete` never deletes from the gauge. (The converse fails: see
   `RemovedTargetScenario`.)
   */
  ghost predicate CountHasGauge(count: map<LabelValues, nat>, gauge: map<LabelValues, real>)
  {
    forall lvs :: lvs in count ==> exists status :: lvs + [status] in gauge
  }

  class Metrics {
    const duration: GaugeVec
    const count: CounterVec
    const histogram: HistogramVec

    ghost predicate Valid()
      reads duration, count, histogram
    {
      && duration.name == DurationName && duration.labelNames == DurationLabels && duration.Valid()
      && count.name == CountName && count.labelNames == CountLabels && count.Valid()
      && histogram.name == HistogramName && histogram.labelNames == HistogramLabels && histogram.Valid()
      && CountMatchesHistogram(count.series, histogram.series)
      && CountHasGauge(count.series, duration.series)
    }

    /** `newMetrics`: three vectors with no series. */
    constructor ()
      ensures Valid() && fresh(duration) && fresh(count) && fresh(histogram)
      ensures duration.series == map[] && count.series == map[] && histogram.series == map[]
    {
      duration := new GaugeVec(DurationName, DurationLabels);
      count := new CounterVec(CountName, CountLabels);
      histogram := new HistogramVec(HistogramName, HistogramLabels);
    }

    /**
     `GetCollectors`: the three vectors, in the order duration, count,
     histogram, all distinct. The fields are constants, so every call
     returns the same three collectors.
     */
    method GetCollectors() returns (collectors: seq<object>)
      ensures collectors == [duration, count, histogram]
      ensures forall i, j :: 0 <= i < j < |collectors| ==> collectors[i] != collectors[j]
    {
      collectors := [duration, count, histogram];
    }

    /**
     `Set`: records one probe of `target`. The gauge of `(target, status)`
     becomes `total`, the histogram of `target` observes `total` and the
     counter of `target` goes up by one; every other series stays as it was.
     */
    method Set(target: string, status: string, total: real)
      requires Valid()
      modifies duration, count, histogram
      ensures Valid()
      ensures duration.series == Put(old(duration.series), [target, status], total)
      ensures histogram.series == AddObservation(old(histogram.series), [target], total)
      ensures count.series == Increment(old(count.series), [target])
    {
      duration.Set([target, status], total);
      histogram.Observe([target], total);
      count.Inc([target]);
      SetKeepsCountHasGauge(old(count.series), old(duration.series), target, status, total);
    }

    /**
     `RemoveObsolete`: for every element of `oldTars` that `newTars` does not
     list, `DeleteLabelValues` with that one target on each vector. The
     counter and histogram series of every obsolete target go; the gauge,
     keyed by two labels, keeps every series.
     */
    method RemoveObsolete(oldTars: seq<string>, newTars: seq<string>)
      requires Valid()
      modifies duration, count, histogram
      ensures Valid()
      ensures duration.series == PruneSeries(old(duration.series), 2, oldTars, newTars)
      ensures histogram.series == PruneSeries(old(histogram.series), 1, oldTars, newTars)
      ensures count.series == PruneSeries(old(count.series), 1, oldTars, newTars)
      ensures duration.series == old(duration.series)
      ensures histogram.series == old(histogram.series) - TargetKeys(1, ObsoleteTargets(oldTars, newTars))
      ensures count.series == old(count.series) - TargetKeys(1, ObsoleteTargets(oldTars, newTars))
      ensures (forall lvs :: lvs in old(count.series) ==> lvs[0] in oldTars) ==>
                forall lvs :: lvs in count.series ==> lvs[0] in newTars
      ensures (forall lvs :: lvs in old(histogram.series) ==> lvs[0] in oldTars) ==>
                forall lvs :: lvs in histogram.series ==> lvs[0] in newTars
    {
      ghost var d0, h0, c0 := duration.series, histogram.series, count.series;
      DeleteObsolete(oldTars, newTars);
      PruneKeepsMetricsInvariant(d0, c0, h0, oldTars, newTars);
    }

    /**
     The loop of `RemoveObsolete`: for each element of `oldTars` that
     `newTars` does not list, one `DeleteLabelValues` with that target on the
     gauge, the histogram and the counter, in that order. It needs only the
     vectors' own invariants.
     */
    method DeleteObsolete(oldTars: seq<string>, newTars: seq<string>)
      requires duration.Valid() && histogram.Valid() && count.Valid()
      modifies duration, count, histogram
      ensures duration.Valid() && histogram.Valid() && count.Valid()
      ensures duration.series == PruneSeries(old(duration.series), |duration.labelNames|, oldTars, newTars)
      ensures histogram.series == PruneSeries(old(histogram.series), |histogram.labelNames|, oldTars, newTars)
      ensures count.series == PruneSeries(old(count.series), |count.labelNames|, oldTars, newTars)
    {
      ghost var d0, h0, c0 := duration.series, histogram.series, count.series;
      for i := 0 to |oldTars|
        invariant duration.Valid() && histogram.Valid() && count.Valid()
        invariant duration.series == PruneSeries(d0, |duration.labelNames|, oldTars[..i], newTars)
        invariant histogram.series == PruneSeries(h0, |histogram.labelNames|, oldTars[..i], newTars)
        invariant count.series == PruneSeries(c0, |count.labelNames|, oldTars[..i], newTars)
      {
        PruneSeriesStep(d0, |duration.labelNames|, oldTars, newTars, i);
        PruneSeriesStep(h0, |histogram.labelNames|, oldTars, newTars, i);
        PruneSeriesStep(c0, |count.labelNames|, oldTars, newTars, i);
        var t := oldTars[i];
        if t !in newTars {
          var d := duration.DeleteLabelValues([t]);
          var h := histogram.DeleteLabelValues([t]);
          var c := count.DeleteLabelValues([t]);
        }
      }
      assert oldTars[..|oldTars|] == oldTars;
    }
  }

  /** What `RemoveObsolete` needs about the three pruned maps, gathered in one place. */
  lemma {:induction false} PruneKeepsMetricsInvariant(duration: map<LabelValues, real>, count: map<LabelValues, nat>, histogram: map<LabelValues, seq<real>>,
                                                      oldTars: seq<string>, newTars: seq<string>)
    requires WellKeyed(count, CountLabels) && WellKeyed(histogram, HistogramLabels)
    requires CountMatchesHistogram(count, histogram) && CountHasGauge(count, duration)
    ensures PruneSeries(duration, 2, oldTars, newTars) == duration
    ensures PruneSeries(histogram, 1, oldTars, newTars) == histogram - TargetKeys(1, ObsoleteTargets(oldTars, newTars))
    ensures PruneSeries(count, 1, oldTars, newTars) == count - TargetKeys(1, ObsoleteTargets(oldTars, newTars))
    ensures CountMatchesHistogram(PruneSeries(count, 1, oldTars, newTars), PruneSeries(histogram, 1, oldTars, newTars))
    ensures CountHasGauge(PruneSeries(count, 1, oldTars, newTars), duration)
    ensures (forall lvs :: lvs in count ==> lvs[0] in oldTars) ==>
              forall lvs :: lvs in PruneSeries(count, 1, oldTars, newTars) ==> lvs[0] in newTars
    ensures (forall lvs :: lvs in histogram ==> lvs[0] in oldTars) ==>
              forall lvs :: lvs in PruneSeries(histogram, 1, oldTars, newTars) ==> lvs[0] in newTars
  {
    PruneLeavesOtherAritiesAlone(duration, 2, oldTars, newTars);
    PruneSeriesIsDifference(histogram, 1, oldTars, newTars);
    PruneSeriesIsDifference(count, 1, oldTars, newTars);
    PruneKeepsCountMatchesHistogram(count, histogram, oldTars, newTars);
    PruneKeepsCountHasGauge(count, duration, oldTars, newTars);
    if forall lvs :: lvs in count ==> lvs[0] in oldTars {
      PruneKeepsOnlyNewTargets(count, oldTars, newTars);
    }
    if forall lvs :: lvs in histogram ==> lvs[0] in oldTars {
      PruneKeepsOnlyNewTargets(histogram, oldTars, newTars);
    }
  }

  /**
   The gap in `RemoveObsolete`: a gauge series of a target that the reload
   removed is still there afterwards, with its old value.
   */
  lemma {:induction false} StatusGaugeSurvivesPrune(gauge: map<LabelValues, real>, oldTars: seq<string>, newTars: seq<string>, target: string, status: string)
    requires [target, status] in gauge
    requires target in oldTars && target !in newTars
    ensures [target, status] in PruneSeries(gauge, |DurationLabels|, oldTars, newTars)
    ensures PruneSeries(gauge, |DurationLabels|, oldTars, newTars)[[target, status]] == gauge[[target, status]]
  {
    PruneLeavesOtherAritiesAlone(gauge, |DurationLabels|, oldTars, newTars);
  }

  /** After a prune the counter and histogram still hold one observation per count. */
  lemma {:induction false} PruneKeepsCountMatchesHistogram(count: map<LabelValues, nat>, histogram: map<LabelValues, seq<real>>, oldTars: seq<string>, newTars: seq<string>)
    requires CountMatchesHistogram(count, histogram)
    ensures CountMatchesHistogram(PruneSeries(count, 1, oldTars, newTars), PruneSeries(histogram, 1, oldTars, newTars))
  {
    PruneSeriesIsDifference(count, 1, oldTars, newTars);
    PruneSeriesIsDifference(histogram, 1, oldTars, newTars);
  }

  /** `Set` creates the gauge series of a target together with its counter series. */
  lemma SetKeepsCountHasGauge(count: map<LabelValues, nat>, gauge: map<LabelValues, real>, target: string, status: string, total: real)
    requires CountHasGauge(count, gauge)
    ensures CountHasGauge(Increment(count, [target]), Put(gauge, [target, status], total))
  {
    var count', gauge' := Increment(count, [target]), Put(gauge, [target, status], total);
    forall lvs | lvs in count'
      ensures exists st :: lvs + [st] in gauge'
    {
      if lvs == [target] {
        assert lvs + [status] == [target, status];
      } else {
        var st :| lvs + [st] in gauge;
        assert lvs + [st] in gauge';
      }
    }
  }

  /** The prune removes counter series only, so each remaining one still has its gauge series. */
  lemma {:induction false} PruneKeepsCountHasGauge(count: map<LabelValues, nat>, gauge: map<LabelValues, real>, oldTars: seq<string>, newTars: seq<string>)
    requires CountHasGauge(count, gauge)
    ensures CountHasGauge(PruneSeries(count, 1, oldTars, newTars), PruneSeries(gauge, 2, oldTars, newTars))
  {
    PruneSeriesIsDifference(count, 1, oldTars, newTars);
    PruneLeavesOtherAritiesAlone(gauge, 2, oldTars, newTars);
  }

  /**
   The pruning the metric set evidently intends, `DeletePartialMatch` on the
   `target` label (the first label of each vector): every series whose
   target is obsolete goes, whatever its other labels, and nothing else.
   */
  function PruneByTarget<V>(s: map<LabelValues, V>, oldTars: seq<string>, newTars: seq<string>): (r: map<LabelValues, V>)
    ensures forall lvs :: lvs in r ==> lvs in s && r[lvs] == s[lvs]
    ensures forall lvs :: lvs in r && |lvs| > 0 ==> lvs[0] !in ObsoleteTargets(oldTars, newTars)
    ensures forall lvs :: lvs in s && (|lvs| == 0 || lvs[0] in newTars || lvs[0] !in oldTars) ==> lvs in r
  {
    map lvs | lvs in s && !(|lvs| > 0 && lvs[0] in oldTars && lvs[0] !in newTars) :: s[lvs]
  }

  /** Under the intended pruning no gauge series of a removed target is left. */
  lemma PruneByTargetLeavesNoStaleGauge(gauge: map<LabelValues, real>, oldTars: seq<string>, newTars: seq<string>, target: string, status: string)
    requires target in oldTars && target !in newTars
    ensures [target, status] !in PruneByTarget(gauge, oldTars, newTars)
  {
  }

  /**
   On the one-label vectors the intended pruning removes exactly what the
   code's loop removes: the correction changes the gauge only.
   */
  lemma {:induction false} PruneByTargetAgreesOnTargetVectors<V>(s: map<LabelValues, V>, oldTars: seq<string>, newTars: seq<string>)
    requires WellKeyed(s, CountLabels)
    ensures PruneByTarget(s, oldTars, newTars) == PruneSeries(s, 1, oldTars, newTars)
  {
    PruneSeriesIsDifference(s, 1, oldTars, newTars);
    var r := PruneByTarget(s, oldTars, newTars);
    var p := PruneSeries(s, 1, oldTars, newTars);
    forall lvs | lvs in s
      ensures lvs in r <==> lvs in p
    {
      assert |lvs| == 1;
      assert lvs == [lvs[0]];
    }
  }

  /** The series two probes of `x` with status `success` and duration 0.5 leave in empty vectors. */
  lemma TwoProbesOfX()
    ensures Put(Put(map[], ["x", "success"], 0.5), ["x", "success"], 0.5) == map[["x", "success"] := 0.5]
    ensures Increment(Increment(map[], ["x"]), ["x"]) == map[["x"] := 2]
    ensures AddObservation(AddObservation(map[], ["x"], 0.5), ["x"], 0.5) == map[["x"] := [0.5, 0.5]]
  {
    var none: map<LabelValues, seq<real>> := map[];
    assert ObservationsOf(none, ["x"]) + [0.5] == [0.5];
    var once := AddObservation(none, ["x"], 0.5);
    assert once == map[["x"] := [0.5]];
    assert ObservationsOf(once, ["x"]) + [0.5] == [0.5, 0.5];
  }

  /**
   Scenario: two probes of `x` with status `success` and duration 0.5 leave
   a gauge of 0.5 for `(x, success)`, a count of 2 and two observations. The
   collectors returned before and after are the same.
   */
  method RepeatedProbeScenario() returns (gauge: map<LabelValues, real>, counter: map<LabelValues, nat>, observed: map<LabelValues, seq<real>>,
                                          collectorsBefore: seq<object>, collectorsAfter: seq<object>)
    ensures gauge == map[["x", "success"] := 0.5]
    ensures counter == map[["x"] := 2]
    ensures observed == map[["x"] := [0.5, 0.5]]
    ensures |collectorsBefore| == 3 && collectorsAfter == collectorsBefore
  {
    var m := new Metrics();
    collectorsBefore := m.GetCollectors();
    m.Set("x", "success", 0.5);
    ghost var d1, c1, h1 := m.duration.series, m.count.series, m.histogram.series;
    m.Set("x", "success", 0.5);
    assert m.duration.series == Put(d1, ["x", "success"], 0.5);
    assert m.count.series == Increment(c1, ["x"]);
    assert m.histogram.series == AddObservation(h1, ["x"], 0.5);
    TwoProbesOfX();
    collectorsAfter := m.GetCollectors();
    gauge, counter, observed := m.duration.series, m.count.series, m.histogram.series;
  }

  /**
   Scenario: one probe of `a.com`, then a reload to an empty target list.
   The counter and histogram of `a.com` are gone; its gauge series for
   `success` is not, and is left with no counter or histogram series.
   */
  method RemovedTargetScenario() returns (gauge: map<LabelValues, real>, counter: map<LabelValues, nat>, observed: map<LabelValues, seq<real>>)
    ensures gauge == map[["a.com", "success"] := 0.5]
    ensures counter == map[] && observed == map[]
  {
    var m := new Metrics();
    m.Set("a.com", "success", 0.5);
    m.RemoveObsolete(["a.com"], []);
    gauge, counter, observed := m.duration.series, m.count.series, m.histogram.series;
    assert ["a.com"] !in counter && ["a.com"] !in observed;
  }
}
