/**
 Pruning the series of targets a configuration reload removed. Both metric
 sets run the same loop: for each `t` of the old target list, in order, when
 `t` is not a member of the new list, issue `DeleteLabelValues(t)` on a
 vector. `PruneSeries` is what that loop leaves in one vector; the lemmas
 relate it to the set difference "old targets minus new targets".
 */
module Obsolete {
  import opened Vectors

  /** The targets listed before the reload and no longer listed after it. */
  function ObsoleteTargets(oldTars: seq<string>, newTars: seq<string>): (obsolete: set<string>)
  {
    set t | t in oldTars && t !in newTars
  }

  /**
   The tuples `DeleteLabelValues(t)` removes from a vector with `arity`
   labels, for each `t` in `ts`: the one-value tuple `[t]`, and nothing at
   all unless the vector has exactly one label.
   */
  function TargetKeys(arity: nat, ts: set<string>): (keys: set<LabelValues>)
  {
    if arity == 1 then set t | t in ts :: [t] else {}
  }

  /**
   The series a vector with `arity` labels holds after the loop over
   `oldTars`, starting from `s`; the loop's last step is the last element.
   */
  function PruneSeries<V>(s: map<LabelValues, V>, arity: nat, oldTars: seq<string>, newTars: seq<string>): (r: map<LabelValues, V>)
    ensures r.Keys <= s.Keys
    ensures forall lvs :: lvs in r ==> r[lvs] == s[lvs]
    decreases |oldTars|
  {
    if oldTars == [] then s
    else
      var prev := PruneSeries(s, arity, oldTars[..|oldTars| - 1], newTars);
      var t := oldTars[|oldTars| - 1];
      if t in newTars then prev else Delete(prev, arity, [t])
  }

  /** One more turn of the loop: the element at `i` is deleted unless `newTars` lists it. */
  lemma PruneSeriesStep<V>(s: map<LabelValues, V>, arity: nat, oldTars: seq<string>, newTars: seq<string>, i: nat)
    requires i < |oldTars|
    ensures PruneSeries(s, arity, oldTars[..i + 1], newTars)
         == var prev := PruneSeries(s, arity, oldTars[..i], newTars);
            if oldTars[i] in newTars then prev else Delete(prev, arity, [oldTars[i]])
  {
    assert oldTars[..i + 1][..i] == oldTars[..i];
  }

  /**
   The loop removes exactly the one-value tuples of the obsolete targets,
   and only from a vector with one label.
   */
  lemma {:induction false} PruneSeriesIsDifference<V>(s: map<LabelValues, V>, arity: nat, oldTars: seq<string>, newTars: seq<string>)
    ensures PruneSeries(s, arity, oldTars, newTars) == s - TargetKeys(arity, ObsoleteTargets(oldTars, newTars))
    decreases |oldTars|
  {
    if oldTars != [] {
      var init, t := oldTars[..|oldTars| - 1], oldTars[|oldTars| - 1];
      assert oldTars == init + [t];
      PruneSeriesIsDifference(s, arity, init, newTars);
      ObsoleteSnoc(init, t, newTars);
      if t !in newTars && arity == 1 {
        var before := ObsoleteTargets(init, newTars);
        TargetKeysAdd(before, t);
        MinusUnion(s, TargetKeys(1, before), {[t]});
      }
    }
  }

  /** Appending `t` to the old list adds `t` to the obsolete targets unless `t` is still listed. */
  lemma ObsoleteSnoc(init: seq<string>, t: string, newTars: seq<string>)
    ensures ObsoleteTargets(init + [t], newTars)
         == if t in newTars then ObsoleteTargets(init, newTars) else ObsoleteTargets(init, newTars) + {t}
  {
  }

  /** One more target adds its one-value tuple to the keys a one-label vector loses. */
  lemma TargetKeysAdd(ts: set<string>, t: string)
    ensures TargetKeys(1, ts + {t}) == TargetKeys(1, ts) + {[t]}
  {
  }

  /** Removing two key sets one after the other removes their union. */
  lemma MinusUnion<K, V>(s: map<K, V>, a: set<K>, b: set<K>)
    ensures (s - a) - b == s - (a + b)
  {
  }

  /**
   No stale series: after the loop no vector with one label holds a series
   for a target that was listed before and is not listed now.
   */
  lemma {:induction false} NoStaleSeries<V>(s: map<LabelValues, V>, oldTars: seq<string>, newTars: seq<string>, t: string)
    requires t in oldTars && t !in newTars
    ensures [t] !in PruneSeries(s, 1, oldTars, newTars)
  {
    PruneSeriesIsDifference(s, 1, oldTars, newTars);
    assert [t] in TargetKeys(1, ObsoleteTargets(oldTars, newTars));
  }

  /**
   No false prune: a series survives the loop, with its value, unless its
   tuple is the one-value tuple of an obsolete target and the vector has one
   label. In particular every series of a target in `newTars`, or never
   listed in `oldTars`, survives.
   */
  lemma {:induction false} NoFalsePrune<V>(s: map<LabelValues, V>, arity: nat, oldTars: seq<string>, newTars: seq<string>, lvs: LabelValues)
    requires lvs in s
    requires arity != 1 || |lvs| != 1 || lvs[0] in newTars || lvs[0] !in oldTars
    ensures lvs in PruneSeries(s, arity, oldTars, newTars)
    ensures PruneSeries(s, arity, oldTars, newTars)[lvs] == s[lvs]
  {
    PruneSeriesIsDifference(s, arity, oldTars, newTars);
    assert lvs !in TargetKeys(arity, ObsoleteTargets(oldTars, newTars));
  }

  /**
   No series outlives the configuration: when every series of a one-label
   vector belonged to a target of `oldTars`, every series left after the
   loop belongs to a target of `newTars`.
   */
  lemma {:induction false} PruneKeepsOnlyNewTargets<V>(s: map<LabelValues, V>, oldTars: seq<string>, newTars: seq<string>)
    requires forall lvs :: lvs in s ==> |lvs| == 1 && lvs[0] in oldTars
    ensures forall lvs :: lvs in PruneSeries(s, 1, oldTars, newTars) ==> lvs[0] in newTars
  {
    PruneSeriesIsDifference(s, 1, oldTars, newTars);
    forall lvs | lvs in PruneSeries(s, 1, oldTars, newTars)
      ensures lvs[0] in newTars
    {
      assert lvs == [lvs[0]];
      assert lvs !in TargetKeys(1, ObsoleteTargets(oldTars, newTars));
    }
  }

  /** A reload that keeps the same targets, or had none before, prunes nothing. */
  lemma {:induction false} PruneNoOps<V>(s: map<LabelValues, V>, arity: nat, targets: seq<string>, newTars: seq<string>)
    ensures PruneSeries(s, arity, targets, targets) == s
    ensures PruneSeries(s, arity, [], newTars) == s
  {
    PruneSeriesIsDifference(s, arity, targets, targets);
    assert ObsoleteTargets(targets, targets) == {};
  }

  /**
   A reload to an empty target list removes the series of every old target
   from a vector with one label and keeps every other series.
   */
  lemma {:induction false} PruneToEmptyTearsDown<V>(s: map<LabelValues, V>, oldTars: seq<string>)
    ensures PruneSeries(s, 1, oldTars, []) == s - (set t | t in oldTars :: [t])
  {
    PruneSeriesIsDifference(s, 1, oldTars, []);
    assert ObsoleteTargets(oldTars, []) == set t | t in oldTars;
  }

  /** Running the loop a second time with the same lists changes nothing. */
  lemma {:induction false} PruneIdempotent<V>(s: map<LabelValues, V>, arity: nat, oldTars: seq<string>, newTars: seq<string>)
    ensures PruneSeries(PruneSeries(s, arity, oldTars, newTars), arity, oldTars, newTars)
         == PruneSeries(s, arity, oldTars, newTars)
  {
    var once := PruneSeries(s, arity, oldTars, newTars);
    PruneSeriesIsDifference(s, arity, oldTars, newTars);
    PruneSeriesIsDifference(once, arity, oldTars, newTars);
  }

  /**
   Only which targets the old list holds matters: duplicates and order in
   `oldTars` change nothing (a repeated delete is a no-op).
   */
  lemma {:induction false} PruneIgnoresDuplicatesAndOrder<V>(s: map<LabelValues, V>, arity: nat, oldTars: seq<string>, oldTars': seq<string>, newTars: seq<string>)
    requires forall t :: t in oldTars <==> t in oldTars'
    ensures PruneSeries(s, arity, oldTars, newTars) == PruneSeries(s, arity, oldTars', newTars)
  {
    PruneSeriesIsDifference(s, arity, oldTars, newTars);
    PruneSeriesIsDifference(s, arity, oldTars', newTars);
    assert ObsoleteTargets(oldTars, newTars) == ObsoleteTargets(oldTars', newTars);
  }

  /**
   The loop passes one label value per delete, so a vector with any other
   number of labels keeps all of its series.
   */
  lemma {:induction false} PruneLeavesOtherAritiesAlone<V>(s: map<LabelValues, V>, arity: nat, oldTars: seq<string>, newTars: seq<string>)
    requires arity != 1
    ensures PruneSeries(s, arity, oldTars, newTars) == s
  {
    PruneSeriesIsDifference(s, arity, oldTars, newTars);
  }

  /** The loop keeps a vector well keyed: it only ever removes series. */
  lemma {:induction false} PruneKeepsWellKeyed<V>(s: map<LabelValues, V>, labelNames: seq<string>, oldTars: seq<string>, newTars: seq<string>)
    requires WellKeyed(s, labelNames)
    ensures PruneSeries(s, |labelNames|, oldTars, newTars).Keys <= s.Keys
    ensures WellKeyed(PruneSeries(s, |labelNames|, oldTars, newTars), labelNames)
  {
    PruneSeriesIsDifference(s, |labelNames|, oldTars, newTars);
  }
}
