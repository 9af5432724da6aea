/**
 The metric set of the health check: one gauge vector, `sparrow_health_up`,
 labelled by `target`, whose value is the health of that target. The Go
 struct embeds the gauge vector, so the metric set is itself the one
 collector it hands to the registry.
 */
module Health {
  import opened Vectors
  import opened Obsolete

  const UpName := "sparrow_health_up"
  const UpLabels := ["target"]

  class Metrics {
    /** The embedded `*prometheus.GaugeVec`. */
    const gauge: GaugeVec

    ghost predicate Valid()
      reads gauge
    {
      gauge.name == UpName && gauge.labelNames == UpLabels && gauge.Valid()
    }

    /** `newMetrics`: a metric set with no series. */
    constructor ()
      ensures Valid() && fresh(gauge)
      ensures gauge.series == map[]
    {
      gauge := new GaugeVec(UpName, UpLabels);
    }

    /**
     `GetCollectors`: the metric set itself, the only collector. The field is
     a constant, so every call returns the same collector.
     */
    method GetCollectors() returns (collectors: seq<object>)
      ensures collectors == [this]
    {
      collectors := [this];
    }

    /** `Set`: the gauge of `target` becomes `status`, created if absent. */
    method Set(target: string, status: real)
      requires Valid()
      modifies gauge
      ensures Valid()
      ensures gauge.series == Put(old(gauge.series), [target], status)
      ensures [target] in gauge.series && gauge.series[[target]] == status
      ensures AgreeExcept(old(gauge.series), gauge.series, [target])
    {
      gauge.Set([target], status);
    }

    /**
     `RemoveObsolete`: deletes the series of every target of `oldTars` that
     `newTars` does not list, one `DeleteLabelValues` per such element.
     */
    method RemoveObsolete(oldTars: seq<string>, newTars: seq<string>)
      requires Valid()
      modifies gauge
      ensures Valid()
      ensures gauge.series == PruneSeries(old(gauge.series), 1, oldTars, newTars)
      ensures gauge.series == old(gauge.series) - TargetKeys(1, ObsoleteTargets(oldTars, newTars))
      ensures forall t :: t in oldTars && t !in newTars ==> [t] !in gauge.series
      ensures forall t :: [t] in old(gauge.series) && (t in newTars || t !in oldTars) ==>
                [t] in gauge.series && gauge.series[[t]] == old(gauge.series)[[t]]
      ensures (forall t :: [t] in old(gauge.series) ==> t in oldTars) ==>
                forall t :: [t] in gauge.series ==> t in newTars
    {
      ghost var before := gauge.series;
      for i := 0 to |oldTars|
        invariant Valid()
        invariant gauge.series == PruneSeries(before, 1, oldTars[..i], newTars)
      {
        PruneSeriesStep(before, 1, oldTars, newTars, i);
        var t := oldTars[i];
        if t !in newTars {
          var deleted := gauge.DeleteLabelValues([t]);
        }
      }
      assert oldTars[..|oldTars|] == oldTars;
      PruneSeriesIsDifference(before, 1, oldTars, newTars);
      forall t | t in oldTars && t !in newTars
        ensures [t] !in gauge.series
      {
        NoStaleSeries(before, oldTars, newTars, t);
      }
      forall t | [t] in before && (t in newTars || t !in oldTars)
        ensures [t] in gauge.series && gauge.series[[t]] == before[[t]]
      {
        NoFalsePrune(before, 1, oldTars, newTars, [t]);
      }
      if forall t :: [t] in before ==> t in oldTars {
        forall lvs | lvs in before
          ensures |lvs| == 1 && lvs[0] in oldTars
        {
          assert lvs == [lvs[0]];
        }
        PruneKeepsOnlyNewTargets(before, oldTars, newTars);
        forall t | [t] in gauge.series
          ensures t in newTars
        {
          assert [t][0] == t;
        }
      }
    }
  }

  /**
   Scenario: `Set("a.com", 1)`, `Set("b.com", 0)`, then a reload from
   `["a.com", "b.com"]` to `["a.com"]` leaves exactly the series of `a.com`,
   with value 1. The collectors returned before and after are the same.
   */
  method ReloadScenario() returns (up: map<LabelValues, real>, collectorsBefore: seq<object>, collectorsAfter: seq<object>)
    ensures up == map[["a.com"] := 1.0]
    ensures |collectorsBefore| == 1 && collectorsAfter == collectorsBefore
  {
    var m := new Metrics();
    collectorsBefore := m.GetCollectors();
    m.Set("a.com", 1.0);
    m.Set("b.com", 0.0);
    m.RemoveObsolete(["a.com", "b.com"], ["a.com"]);
    collectorsAfter := m.GetCollectors();
    up := m.gauge.series;
    assert ["b.com"] !in up;
    assert up.Keys == {["a.com"]};
  }
}
