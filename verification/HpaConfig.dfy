/** Applying a replica configuration to an HPA, and what any run of updates keeps. */
module HpaConfig {
  import opened Options
  import opened Triggers

  /** The replica bounds of a stored HPA. */
  datatype Hpa = Hpa(minReplicas: Option<int32>, maxReplicas: int32)

  predicate ValidHpa(hpa: Hpa) {
    hpa.maxReplicas > 0 && (hpa.minReplicas.Some? ==> 0 <= hpa.minReplicas.value <= hpa.maxReplicas)
  }

  /** `hpa` with the fields that `config` sets. */
  function Overlay(hpa: Hpa, config: HPAConfig): Hpa {
    Hpa(if config.minReplicas.Some? then config.minReplicas else hpa.minReplicas,
        if config.maxReplicas.Some? then config.maxReplicas.value else hpa.maxReplicas)
  }

  predicate Accepts(hpa: Hpa, config: HPAConfig) {
    var after := Overlay(hpa, config);
    && (config.minReplicas.Some? ==> config.minReplicas.value >= 0)
    && (config.maxReplicas.Some? ==> config.maxReplicas.value > 0)
    && (after.minReplicas.Some? ==> after.minReplicas.value <= after.maxReplicas)
  }

  /** The stored HPA after one update: rejected configurations leave no trace. */
  function Updated(hpa: Hpa, config: HPAConfig): Hpa {
    if Accepts(hpa, config) then Overlay(hpa, config) else hpa
  }

  /** What a possibly rejected configuration writes into the working copy before it is given up. */
  function Written(hpa: Hpa, config: HPAConfig): Hpa {
    if config.minReplicas.Some? && config.minReplicas.value < 0 then hpa
    else if config.maxReplicas.Some? && config.maxReplicas.value <= 0 then
      hpa.(minReplicas := Overlay(hpa, config).minReplicas)
    else Overlay(hpa, config)
  }

  /** The working copy of an HPA that an update edits in place. */
  class HpaObject {
    var minReplicas: Option<int32>
    var maxReplicas: int32

    constructor DeepCopy(hpa: Hpa)
      ensures Spec() == hpa
    {
      minReplicas, maxReplicas := hpa.minReplicas, hpa.maxReplicas;
    }

    function Spec(): Hpa
      reads this
    {
      Hpa(minReplicas, maxReplicas)
    }

    method ApplyHPAConfig(config: HPAConfig) returns (ok: bool)
      modifies this
      ensures ok == Accepts(old(Spec()), config)
      ensures Spec() == Written(old(Spec()), config)
    {
      if config.minReplicas.Some? {
        if config.minReplicas.value < 0 {
          return false;
        }
        minReplicas := config.minReplicas;
      }
      if config.maxReplicas.Some? {
        if config.maxReplicas.value <= 0 {
          return false;
        }
        maxReplicas := config.maxReplicas.value;
      }
      if minReplicas.Some? && minReplicas.value > maxReplicas {
        return false;
      }
      return true;
    }
  }

  /** The stored HPA after a run of updates, some of them rejected. */
  function UpdatedAll(hpa: Hpa, configs: seq<HPAConfig>): Hpa
    decreases |configs|
  {
    if configs == [] then hpa else UpdatedAll(Updated(hpa, configs[0]), configs[1..])
  }

  /** Both bounds set and in order. */
  predicate Complete(config: HPAConfig) {
    && config.minReplicas.Some? && config.maxReplicas.Some?
    && 0 <= config.minReplicas.value <= config.maxReplicas.value
    && config.maxReplicas.value > 0
  }

  /** The bounds hold after every run of updates. */
  lemma {:induction false} ValidAfterAnyRun(hpa: Hpa, configs: seq<HPAConfig>)
    requires ValidHpa(hpa)
    ensures ValidHpa(UpdatedAll(hpa, configs))
    decreases |configs|
  {
    if configs != [] {
      ValidAfterAnyRun(Updated(hpa, configs[0]), configs[1..]);
    }
  }

  lemma {:induction false} UpdatedAllSplits(hpa: Hpa, before: seq<HPAConfig>, after: seq<HPAConfig>)
    ensures UpdatedAll(hpa, before + after) == UpdatedAll(UpdatedAll(hpa, before), after)
    decreases |before|
  {
    if before == [] {
      assert before + after == after;
    } else {
      assert (before + after)[1..] == before[1..] + after;
      UpdatedAllSplits(Updated(hpa, before[0]), before[1..], after);
    }
  }

  /** A complete configuration in the middle of a run erases everything before it. */
  lemma CompleteErasesHistory(hpa: Hpa, other: Hpa, before: seq<HPAConfig>, config: HPAConfig, after: seq<HPAConfig>)
    requires Complete(config)
    ensures UpdatedAll(hpa, before + [config] + after) == UpdatedAll(other, [config] + after)
    ensures UpdatedAll(hpa, before + [config]) == Hpa(config.minReplicas, config.maxReplicas.value)
  {
    UpdatedAllSplits(hpa, before, [config] + after);
    assert before + [config] + after == before + ([config] + after);
    UpdatedAllSplits(hpa, before, [config]);
    assert ([config] + after)[1..] == after && [config][1..] == [];
  }

  /** No other configuration does: the outcome is the same from every HPA exactly for complete ones. */
  lemma ErasesHistoryIffComplete(config: HPAConfig)
    ensures (forall hpa: Hpa, other: Hpa :: Updated(hpa, config) == Updated(other, config)) <==> Complete(config)
  {
    if !Complete(config) {
      var h0, h1, h2 := Hpa(None, 5), Hpa(Some(0), 5), Hpa(None, 6);
      assert Updated(h0, config) != Updated(h1, config) || Updated(h0, config) != Updated(h2, config);
    }
  }

  /** Configurations that no valid HPA rejects. */
  predicate Robust(config: HPAConfig) {
    match (config.minReplicas, config.maxReplicas)
    case (None, None) => true
    case (Some(min), None) => 0 <= min <= 1
    case (None, Some(max)) => max == 0x7fff_ffff
    case (Some(_), Some(_)) => Complete(config)
  }

  lemma RobustIffNeverRejected(config: HPAConfig)
    ensures (forall hpa: Hpa | ValidHpa(hpa) :: Accepts(hpa, config)) <==> Robust(config)
  {
    if !Robust(config) {
      var small, large := Hpa(None, 1), Hpa(Some(0x7fff_ffff), 0x7fff_ffff);
      assert ValidHpa(small) && ValidHpa(large);
      assert !Accepts(small, config) || !Accepts(large, config);
    }
  }

  /** The HPA carries every bound that `config` sets. */
  predicate Carries(hpa: Hpa, config: HPAConfig) {
    && (config.minReplicas.Some? ==> hpa.minReplicas == config.minReplicas)
    && (config.maxReplicas.Some? ==> hpa.maxReplicas == config.maxReplicas.value)
  }
}
