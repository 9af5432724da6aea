# Per-check metric sets of the sparrow monitoring agent

sparrow runs checks (health, latency, ...) against a configured list of
targets and publishes one Prometheus metric series per target. Each check
owns a small metric set with three operations:

- `GetCollectors` hands the registry the collectors to register;
- `Set` records the outcome of one probe of one target;
- `RemoveObsolete(oldTars, newTars)` runs after a configuration reload and
  deletes the series of every target that was configured before and is not
  any more.

This project models the two metric sets, health and latency, as Dafny
classes over the Prometheus label vectors they hold. A vector is modelled as
a map from a tuple of label values to one series, updated in place:

- `vectors.dfy` (module `Vectors`): the vector semantics the metric sets rely on.
  `WithLabelValues` gets or creates the series of exactly that tuple.
  `DeleteLabelValues` deletes only the series whose whole tuple equals its
  arguments, and deletes nothing when the number of values differs from the
  number of labels. Gauge, counter and histogram vectors are classes with a
  `series` map field.
- `obsolete.dfy` (module `Obsolete`): `PruneSeries`, what the
  `RemoveObsolete` loop leaves in one vector. The main lemma proves it equal
  to a set difference: the vector loses the one-value tuples of the targets
  in `oldTars` and not in `newTars`, and only when it has exactly one label.
  The other lemmas follow from that one. They cover no stale series, no false
  prune, the no-op cases, teardown to an empty list, idempotence and
  indifference to duplicates.
- `health.dfy` (module `Health`): the health metric set, one gauge vector
  labelled `target`.
- `latency.dfy` (module `Latency`): the latency metric set. It holds a gauge
  labelled `(target, status)`, a counter labelled `target` and a histogram
  labelled `target`. The object invariant says the counter and the histogram
  have series for the same tuples, that each count equals its number of
  observations, and that every counter series has a gauge series of the same
  target.

The comment on `RemoveObsolete` (pkg/checks/latency/metrics.go:82) says it
"removes metrics for targets not in the new config". This project reads that
as: every series of such a target goes, the latency gauge series of every
status included. The code calls `DeleteLabelValues` with one value on that
two-label gauge vector, and such a call deletes nothing. The model follows
the code: the gauge keeps all of its series (see "## Findings").

## Model

| member | source | states |
|---|---|---|
| `Vectors.Put` | pkg/checks/health/metrics.go:52 | Overwrite-or-create: the tuple maps to the new value whether or not it existed before. Every other tuple keeps its series. |
| `Vectors.Increment` | pkg/checks/latency/metrics.go:79 | The counter of the tuple becomes its old count plus one, or 1 if it was absent. Every other tuple is unchanged. |
| `Vectors.AddObservation` | pkg/checks/latency/metrics.go:78 | The histogram of the tuple holds its old observations plus exactly one more, the new value (as a sequence and as a multiset). Every other tuple is unchanged. |
| `Vectors.Delete` | pkg/checks/health/metrics.go:59 | A delete removes the tuple exactly when its length equals the vector's label count. Otherwise nothing changes. No other tuple is touched. |
| `Vectors.DeleteIdempotent` | pkg/checks/health/metrics.go:56-62 | Deleting a tuple twice leaves the same series as deleting it once. |
| `Vectors.GaugeVec.constructor` | pkg/checks/latency/metrics.go:36-45 | `prometheus.NewGaugeVec`: a vector with the given name and label names and no series. |
| `Vectors.GaugeVec.Set` | pkg/checks/latency/metrics.go:77 | `WithLabelValues(...).Set(v)` on a gauge vector: the new series map is `Put` of the old one, and every key keeps one value per label. |
| `Vectors.GaugeVec.DeleteLabelValues` | pkg/checks/latency/metrics.go:86 | Reports true exactly when the arity matches and the tuple was present. The new series map is `Delete` of the old one. |
| `Vectors.HistogramVec.constructor` | pkg/checks/latency/metrics.go:55-63 | `prometheus.NewHistogramVec`: a vector with the given name and label names and no series. |
| `Vectors.HistogramVec.Observe` | pkg/checks/latency/metrics.go:78 | `WithLabelValues(...).Observe(v)`: the new series map is `AddObservation` of the old one. |
| `Vectors.HistogramVec.DeleteLabelValues` | pkg/checks/latency/metrics.go:87 | Same delete semantics on the histogram vector. |
| `Vectors.CounterVec.constructor` | pkg/checks/latency/metrics.go:46-54 | `prometheus.NewCounterVec`: a vector with the given name and label names and no series. |
| `Vectors.CounterVec.Inc` | pkg/checks/latency/metrics.go:79 | `WithLabelValues(...).Inc()`: the new series map is `Increment` of the old one. |
| `Vectors.CounterVec.DeleteLabelValues` | pkg/checks/latency/metrics.go:88 | Same delete semantics on the counter vector. |
| `Obsolete.PruneSeries` | pkg/checks/health/metrics.go:57-61 | What the `RemoveObsolete` loop leaves in one vector: its keys are a subset of the old keys and every surviving series keeps its value. |
| `Obsolete.PruneSeriesStep` | pkg/checks/health/metrics.go:57-60 | One iteration of the loop deletes `[t]` for the current element `t` unless `newTars` lists it. |
| `Obsolete.PruneSeriesIsDifference` | pkg/checks/health/metrics.go:56-62 | The whole loop leaves the old series minus the one-value tuples of the targets in `oldTars` and not in `newTars`. On a vector whose label count is not 1 it removes nothing. |
| `Obsolete.NoStaleSeries` | pkg/checks/health/metrics.go:57-61 | After the loop, no one-label vector has a series for a target that is in `oldTars` and not in `newTars`. |
| `Obsolete.NoFalsePrune` | pkg/checks/health/metrics.go:57-58 | Every series survives with its value unless it is the one-value tuple of an obsolete target. This covers targets in `newTars` and targets never listed in `oldTars`. |
| `Obsolete.PruneKeepsOnlyNewTargets` | pkg/checks/health/metrics.go:55-62 | When every series of a one-label vector belonged to a target of `oldTars`, every series left after the loop belongs to a target of `newTars`: no series outlives the new configuration. |
| `Obsolete.PruneNoOps` | pkg/checks/latency/metrics.go:84-85 | `RemoveObsolete(T, T)` and `RemoveObsolete([], X)` change no vector. |
| `Obsolete.PruneToEmptyTearsDown` | pkg/checks/health/metrics.go:56-62 | `RemoveObsolete(old, [])` removes the series of every target of `old` from a one-label vector and keeps everything else. |
| `Obsolete.PruneIdempotent` | pkg/checks/latency/metrics.go:83-91 | Running the prune a second time with the same lists changes nothing. |
| `Obsolete.PruneIgnoresDuplicatesAndOrder` | pkg/checks/health/metrics.go:57 | Two old lists with the same members prune alike. Duplicates and order in `oldTars` do not matter. |
| `Obsolete.PruneLeavesOtherAritiesAlone` | pkg/checks/latency/metrics.go:86 | Deleting with one label value leaves a vector with any other label count untouched. |
| `Obsolete.PruneKeepsWellKeyed` | pkg/checks/latency/metrics.go:84-89 | The prune only removes series, so every key still has one value per label. |
| `Health.Metrics.constructor` | pkg/checks/health/metrics.go:32-44 | A fresh gauge vector named `sparrow_health_up` with the single label `target` and no series. |
| `Health.Metrics.GetCollectors` | pkg/checks/health/metrics.go:47-49 | Returns a one-element list holding the metric set itself. |
| `Health.Metrics.Set` | pkg/checks/health/metrics.go:51-53 | The gauge of `target` becomes `status`, whether or not it existed. The gauge of every other target is unchanged. |
| `Health.Metrics.RemoveObsolete` | pkg/checks/health/metrics.go:56-62 | The gauge equals the old gauge minus the series of the obsolete targets. No obsolete target keeps a series. Targets in `newTars`, and targets not in `oldTars`, keep theirs unchanged. If every series belonged to a target of `oldTars`, every remaining one belongs to a target of `newTars`. |
| `Health.ReloadScenario` | pkg/checks/health/metrics.go:51-62 | `Set("a.com", 1)`, `Set("b.com", 0)`, then `RemoveObsolete(["a.com", "b.com"], ["a.com"])` leaves exactly `{["a.com"] ↦ 1}`. The collector lists returned before and after are equal (both are outputs). |
| `Latency.Metrics.constructor` | pkg/checks/latency/metrics.go:34-65 | Three fresh, empty vectors with their names and label lists, `(target, status)` for the gauge and `(target)` for the other two. |
| `Latency.Metrics.GetCollectors` | pkg/checks/latency/metrics.go:68-74 | Returns exactly `[duration, count, histogram]`, three distinct objects in that order. The fields are constants. |
| `Latency.Metrics.Set` | pkg/checks/latency/metrics.go:76-80 | The gauge of `(target, status)` becomes `total`. The histogram of `target` gains the observation `total`. The counter of `target` goes up by one. Nothing else changes. The object invariant is kept: counter and histogram have the same tuples, one count per observation, and every counter tuple has a gauge series of the same target. |
| `Latency.Metrics.RemoveObsolete` | pkg/checks/latency/metrics.go:83-91 | The counter and histogram lose exactly the series of the obsolete targets. The gauge is unchanged. The object invariant is kept. If every counter (histogram) series belonged to a target of `oldTars`, every remaining one belongs to a target of `newTars`. |
| `Latency.Metrics.DeleteObsolete` | pkg/checks/latency/metrics.go:84-90 | The loop itself: each vector's new series map is what `PruneSeries` leaves of the old one, at that vector's label count. |
| `Latency.PruneKeepsMetricsInvariant` | pkg/checks/latency/metrics.go:84-89 | Pruning the three maps with the same lists leaves the gauge as it was, removes the obsolete targets from counter and histogram, keeps the object invariant, and leaves no counter or histogram series outside `newTars` when none was outside `oldTars`. |
| `Latency.StatusGaugeSurvivesPrune` | pkg/checks/latency/metrics.go:41-44 | A `(target, status)` gauge series of a target that the reload removed survives the prune, with its old value. |
| `Latency.PruneKeepsCountMatchesHistogram` | pkg/checks/latency/metrics.go:87-88 | Pruning the counter and the histogram with the same lists keeps equal key sets and one count per observation. |
| `Latency.SetKeepsCountHasGauge` | pkg/checks/latency/metrics.go:77-79 | One `Set` writes the gauge and the counter of the same target, so every counter series keeps a gauge series of its target. |
| `Latency.PruneKeepsCountHasGauge` | pkg/checks/latency/metrics.go:86-88 | The prune only removes counter series and leaves the gauge, so every remaining counter series still has a gauge series of its target. |
| `Latency.PruneByTarget` | pkg/checks/latency/metrics.go:86 | Intended pruning: drops every series whose first (`target`) label is obsolete, whatever its other labels, and keeps every other series with its value. |
| `Latency.PruneByTargetLeavesNoStaleGauge` | pkg/checks/latency/metrics.go:86 | Under the intended pruning, no `(target, status)` gauge series of an obsolete target remains. |
| `Latency.PruneByTargetAgreesOnTargetVectors` | pkg/checks/latency/metrics.go:87-88 | On vectors labelled by `target` alone, the intended pruning equals the code's loop. The correction only changes the gauge. |
| `Latency.RepeatedProbeScenario` | pkg/checks/latency/metrics.go:76-80 | Two `Set("x", "success", 0.5)` leave gauge `(x, success)` at 0.5, a count of 2 for `x` and two observations of 0.5 for `x`. The collector lists returned before and after are equal (both are outputs). |
| `Latency.RemovedTargetScenario` | pkg/checks/latency/metrics.go:83-91 | One `Set("a.com", "success", 0.5)`, then `RemoveObsolete(["a.com"], [])`. The counter and histogram end up empty; the gauge still holds `(a.com, success)` at 0.5, a gauge series with no counter or histogram counterpart. |

## Left out

- `scripts/gen-check/gen-check.go` is not part of this model. It is a command-line file generator: file I/O and flags, with no logic of the metric sets.
- Registration with the Prometheus registry, the exposition format and the help strings are left out. Metric names and label names are kept as constants.
- Floating point: gauge and histogram values are `real`, and the counter is a `nat` that only goes up by one.
- Histogram bucketing is not modelled. A histogram series is the sequence of values it observed.
- Concurrency: the vectors lock internally and the metric sets add no locking, so `Set` and `RemoveObsolete` are modelled as sequential calls. Interleavings of a concurrent `Set` and `RemoveObsolete` are not modelled. The latency object invariant (`Latency.CountMatchesHistogram`) holds only for sequential calls: a `Set(t, ...)` whose histogram `Observe` and counter `Inc` fall between the histogram delete and the counter delete of a `RemoveObsolete` that drops `t` leaves a histogram series of `t` with no counter series.
- Label values are Dafny strings, which hold only valid Unicode; a Go string can hold any bytes. A label value that is not valid UTF-8 makes `WithLabelValues` panic (so `Set` panics in both metric sets) and makes `DeleteLabelValues` return false without deleting. Neither path is modelled.
- `WithLabelValues` panics when given the wrong number of values. The model turns this into a precondition; the metric sets always pass the right number.
- The child metric that `WithLabelValues` returns is not a separate object. Each `WithLabelValues(...).Set/Observe/Inc` chain is one vector operation.
- `helper.SliceContains` is not part of this model. Membership is sequence membership, `t in newTars`.
- Teardown of a metric set, and unregistering it, happen in the registry and are left out.

## Findings

| source | as written | input that shows it | evidently intended | confidence | as-written member | corrected member |
|---|---|---|---|---|---|---|
| pkg/checks/latency/metrics.go:86 | `m.duration.DeleteLabelValues(t)` passes one value to a gauge vector declared with the labels `target` and `status`. The call deletes nothing. | `Set("a.com", "success", 0.5)` then `RemoveObsolete(["a.com"], [])`: the series `sparrow_latency_duration_seconds{target="a.com", status="success"}` remains (`Latency.RemovedTargetScenario`). It is then a gauge series of a target that is no longer configured and has no counter or histogram series. | Delete every gauge series of the removed target, whatever its status (a partial match on `target`, as `DeletePartialMatch` does). | medium: follows from the delete semantics above; not executed | `Latency.StatusGaugeSurvivesPrune` | `Latency.PruneByTarget` |

The metric set classes keep the code as written. `Latency.PruneByTarget` is
the corrected pruning. `Latency.PruneByTargetLeavesNoStaleGauge` proves it
leaves no stale gauge series. `Latency.PruneByTargetAgreesOnTargetVectors`
proves it changes nothing for the counter and the histogram.
