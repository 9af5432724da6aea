/**
 The label-keyed metric vectors of the Prometheus client library, as the
 metric sets of the checks use them. A vector maps a tuple of label values
 (one value per declared label name) to one series. From the caller's side a
 vector is a thread-safe map, so it is modelled as a map updated by
 sequential operations:

 - `WithLabelValues(lvs...)` gets the series of exactly that tuple, creating
   it when absent (a counter starts at 0, a histogram with no observations);
   it panics when the number of values differs from the number of labels,
   which the methods below turn into a precondition;
 - `DeleteLabelValues(lvs...)` deletes the series whose whole tuple equals
   `lvs` and reports whether it did; when the number of values differs from
   the number of labels it deletes nothing and reports false.
 */
module Vectors {

  /** One value per label name, in the order the names were declared. */
  type LabelValues = seq<string>

  /** True iff `r` and `s` hold the same series under every tuple but `lvs`. */
  ghost predicate AgreeExcept<V>(s: map<LabelValues, V>, r: map<LabelValues, V>, lvs: LabelValues)
  {
    forall k :: k != lvs ==> (k in s <==> k in r) && (k in s ==> r[k] == s[k])
  }

  /** `WithLabelValues(lvs...).Set(v)` on a gauge vector: overwrite or create. */
  function Put<V>(s: map<LabelValues, V>, lvs: LabelValues, v: V): (r: map<LabelValues, V>)
    ensures lvs in r && r[lvs] == v
    ensures AgreeExcept(s, r, lvs)
    ensures r.Keys == s.Keys + {lvs}
  {
    s[lvs := v]
  }

  /** What a counter series reads: its value, or 0 before its first increment. */
  function CountOf(s: map<LabelValues, nat>, lvs: LabelValues): (n: nat)
  {
    if lvs in s then s[lvs] else 0
  }

  /** `WithLabelValues(lvs...).Inc()` on a counter vector. */
  function Increment(s: map<LabelValues, nat>, lvs: LabelValues): (r: map<LabelValues, nat>)
    ensures lvs in r && r[lvs] == CountOf(s, lvs) + 1
    ensures lvs !in s ==> r[lvs] == 1
    ensures AgreeExcept(s, r, lvs)
    ensures r.Keys == s.Keys + {lvs}
  {
    s[lvs := CountOf(s, lvs) + 1]
  }

  /** The observations a histogram series has folded in, oldest first. */
  function ObservationsOf(s: map<LabelValues, seq<real>>, lvs: LabelValues): (seen: seq<real>)
  {
    if lvs in s then s[lvs] else []
  }

  /** `WithLabelValues(lvs...).Observe(v)` on a histogram vector. */
  function AddObservation(s: map<LabelValues, seq<real>>, lvs: LabelValues, v: real): (r: map<LabelValues, seq<real>>)
    ensures lvs in r && r[lvs] == ObservationsOf(s, lvs) + [v]
    ensures |r[lvs]| == |ObservationsOf(s, lvs)| + 1
    ensures multiset(r[lvs]) == multiset(ObservationsOf(s, lvs)) + multiset{v}
    ensures AgreeExcept(s, r, lvs)
    ensures r.Keys == s.Keys + {lvs}
  {
    s[lvs := ObservationsOf(s, lvs) + [v]]
  }

  /** Whether `DeleteLabelValues(lvs...)` on a vector with `arity` labels deletes a series. */
  predicate Deletes<V>(s: map<LabelValues, V>, arity: nat, lvs: LabelValues)
  {
    |lvs| == arity && lvs in s
  }

  /** The series left after `DeleteLabelValues(lvs...)` on a vector with `arity` labels. */
  function Delete<V>(s: map<LabelValues, V>, arity: nat, lvs: LabelValues): (r: map<LabelValues, V>)
    ensures lvs !in r <==> lvs !in s || |lvs| == arity
    ensures AgreeExcept(s, r, lvs)
    ensures r.Keys == if |lvs| == arity then s.Keys - {lvs} else s.Keys
  {
    if |lvs| == arity then s - {lvs} else s
  }

  /** Deleting a tuple twice leaves what deleting it once leaves. */
  lemma DeleteIdempotent<V>(s: map<LabelValues, V>, arity: nat, lvs: LabelValues)
    ensures Delete(Delete(s, arity, lvs), arity, lvs) == Delete(s, arity, lvs)
  {
  }

  /** Every key of a vector has one value per declared label name. */
  ghost predicate WellKeyed<V>(s: map<LabelValues, V>, labelNames: seq<string>)
  {
    forall lvs :: lvs in s ==> |lvs| == |labelNames|
  }

  /** A gauge vector (`prometheus.GaugeVec`). */
  class GaugeVec {
    const name: string
    const labelNames: seq<string>
    var series: map<LabelValues, real>

    ghost predicate Valid()
      reads this
    {
      WellKeyed(series, labelNames)
    }

    /** `prometheus.NewGaugeVec`: a vector with no series. */
    constructor (name: string, labelNames: seq<string>)
      ensures this.name == name && this.labelNames == labelNames
      ensures series == map[] && Valid()
    {
      this.name := name;
      this.labelNames := labelNames;
      series := map[];
    }

    /** `WithLabelValues(lvs...).Set(v)`. */
    method Set(lvs: LabelValues, v: real)
      requires Valid() && |lvs| == |labelNames|
      modifies this
      ensures Valid()
      ensures series == Put(old(series), lvs, v)
    {
      series := series[lvs := v];
    }

    /** `DeleteLabelValues(lvs...)`. */
    method DeleteLabelValues(lvs: LabelValues) returns (deleted: bool)
      requires Valid()
      modifies this
      ensures Valid()
      ensures deleted == Deletes(old(series), |labelNames|, lvs)
      ensures series == Delete(old(series), |labelNames|, lvs)
    {
      deleted := |lvs| == |labelNames| && lvs in series;
      if |lvs| == |labelNames| {
        series := series - {lvs};
      }
    }
  }

  /** A counter vector (`prometheus.CounterVec`); a counter only counts up by one here. */
  class CounterVec {
    const name: string
    const labelNames: seq<string>
    var series: map<LabelValues, nat>

    ghost predicate Valid()
      reads this
    {
      WellKeyed(series, labelNames)
    }

    /** `prometheus.NewCounterVec`: a vector with no series. */
    constructor (name: string, labelNames: seq<string>)
      ensures this.name == name && this.labelNames == labelNames
      ensures series == map[] && Valid()
    {
      this.name := name;
      this.labelNames := labelNames;
      series := map[];
    }

    /** `WithLabelValues(lvs...).Inc()`. */
    method Inc(lvs: LabelValues)
      requires Valid() && |lvs| == |labelNames|
      modifies this
      ensures Valid()
      ensures series == Increment(old(series), lvs)
    {
      var n := if lvs in series then series[lvs] else 0;
      series := series[lvs := n + 1];
    }

    /** `DeleteLabelValues(lvs...)`. */
    method DeleteLabelValues(lvs: LabelValues) returns (deleted: bool)
      requires Valid()
      modifies this
      ensures Valid()
      ensures deleted == Deletes(old(series), |labelNames|, lvs)
      ensures series == Delete(old(series), |labelNames|, lvs)
    {
      deleted := |lvs| == |labelNames| && lvs in series;
      if |lvs| == |labelNames| {
        series := series - {lvs};
      }
    }
  }

  /**
   A histogram vector (`prometheus.HistogramVec`). Bucketing is not modelled:
   a series is the sequence of values it has observed.
   */
  class HistogramVec {
    const name: string
    const labelNames: seq<string>
    var series: map<LabelValues, seq<real>>

    ghost predicate Valid()
      reads this
    {
      WellKeyed(series, labelNames)
    }

    /** `prometheus.NewHistogramVec`: a vector with no series. */
    constructor (name: string, labelNames: seq<string>)
      ensures this.name == name && this.labelNames == labelNames
      ensures series == map[] && Valid()
    {
      this.name := name;
      this.labelNames := labelNames;
      series := map[];
    }

    /** `WithLabelValues(lvs...).Observe(v)`. */
    method Observe(lvs: LabelValues, v: real)
      requires Valid() && |lvs| == |labelNames|
      modifies this
      ensures Valid()
      ensures series == AddObservation(old(series), lvs, v)
    {
      var seen := if lvs in series then series[lvs] else [];
      series := series[lvs := seen + [v]];
    }

    /** `DeleteLabelValues(lvs...)`. */
    method DeleteLabelValues(lvs: LabelValues) returns (deleted: bool)
      requires Valid()
      modifies this
      ensures Valid()
      ensures deleted == Deletes(old(series), |labelNames|, lvs)
      ensures series == Delete(old(series), |labelNames|, lvs)
    {
      deleted := |lvs| == |labelNames| && lvs in series;
      if |lvs| == |labelNames| {
        series := series - {lvs};
      }
    }
  }
}
