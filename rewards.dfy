/** The reward of one observation (`_calculate_reward`): a pod-utilisation term
    and a latency term relative to the latency SLA, weighted half and half, with
    a fixed penalty when the SLA is violated. */
module Rewards {

  const MinPods: int := 1
  const MaxPods: int := 4
  /** The latency SLA, in the units of the latency table. */
  const SlaLatency: real := 0.5
  /** The fraction of the SLA that is the target operating point. */
  const LatencyRefValue: real := 0.8
  /** Sharpness of the drop of the latency reward around the target. */
  const D: real := 10.0
  const PodWeight: real := 0.5
  const LatencyWeight: real := 0.5

  /** `[workload_rate, replicas_1, replicas_2, replicas_3, latency]`. */
  datatype Observation = Observation(
    workloadRate: real,
    replica1: int,
    replica2: int,
    replica3: int,
    latency: real)

  function ObservedReplicas(o: Observation): seq<int> {
    [o.replica1, o.replica2, o.replica3]
  }

  /** `gaussian(k, t)` stands for `e^(-k * t^2)`. What the reward relies on is
      that for `k > 0` it lies in (0, 1] and is 1 exactly at `t == 0`. */
  ghost predicate IsGaussian(gaussian: (real, real) -> real) {
    && (forall k, t :: 0.0 < k ==> 0.0 < gaussian(k, t) <= 1.0)
    && (forall k, t :: 0.0 < k ==> (gaussian(k, t) == 1.0 <==> t == 0.0))
  }

  /** The per-replica pod reward, linear in the replica count. */
  function PodTerm(r: int, maxPods: int): real
    requires maxPods != 1
  {
    -100.0 / (maxPods - 1) as real * r as real + 100.0 * maxPods as real / (maxPods - 1) as real
  }

  /** The value the pod-reward loop accumulates over `rs`. */
  function PodRewardTotal(rs: seq<int>): real {
    if rs == [] then 0.0 else PodRewardTotal(rs[..|rs| - 1]) + PodTerm(rs[|rs| - 1], MaxPods)
  }

  function AveragePodReward(o: Observation): real {
    PodRewardTotal(ObservedReplicas(o)) / 3.0
  }

  function LatencyRatio(latency: real): real {
    latency / SlaLatency
  }

  /** The latency reward below the SLA: a gentle Gaussian below the target ratio,
      a sharp one between the target and the SLA. */
  function LatencyReward(ratio: real, gaussian: (real, real) -> real): real {
    if ratio < LatencyRefValue then 100.0 * gaussian(0.06 * D, LatencyRefValue - ratio)
    else 100.0 * gaussian(10.0 * D, LatencyRefValue - ratio)
  }

  /** `(reward, done)` for an observation. `isInvalidAction` is a constant false
      at the one call site; the branch it guards is kept. */
  function Reward(o: Observation, isInvalidAction: bool, gaussian: (real, real) -> real): (real, bool) {
    if isInvalidAction then (-100.0, true)
    else
      var ratio := LatencyRatio(o.latency);
      if ratio < 1.0 then (PodWeight * AveragePodReward(o) + LatencyWeight * LatencyReward(ratio, gaussian), false)
      else (-100.0, false)
  }

  method CalculateReward(observation: Observation, isInvalidAction: bool, gaussian: (real, real) -> real)
    returns (reward: real, done: bool)
    ensures (reward, done) == Reward(observation, isInvalidAction, gaussian)
    ensures isInvalidAction ==> reward == -100.0 && done
    ensures !isInvalidAction ==> !done
    ensures !isInvalidAction && LatencyRatio(observation.latency) >= 1.0 ==> reward == -100.0
  {
    done := false;
    var replicas := ObservedReplicas(observation);
    reward := 0.0;
    if isInvalidAction {
      reward := -100.0;
      done := true;
      return;
    }

    var podRewardTotal := 0.0;
    for i := 0 to |replicas|
      invariant podRewardTotal == PodRewardTotal(replicas[..i])
    {
      assert replicas[..i + 1][..i] == replicas[..i];
      podRewardTotal := podRewardTotal + PodTerm(replicas[i], MaxPods);
    }
    assert replicas[..|replicas|] == replicas;
    var averagePodReward := podRewardTotal / 3.0;
    reward := reward + PodWeight * averagePodReward;

    var latencyRatio := observation.latency / SlaLatency;
    var latencyReward: real;
    if latencyRatio < LatencyRefValue {
      latencyReward := 100.0 * gaussian(0.06 * D, LatencyRefValue - latencyRatio);
    } else if latencyRatio < 1.0 {
      latencyReward := 100.0 * gaussian(10.0 * D, LatencyRefValue - latencyRatio);
    } else {
      reward := -100.0;
      return;
    }
    reward := reward + LatencyWeight * latencyReward;
  }

  /** The pod term in closed form: `100 * (maxPods - r) / (maxPods - 1)`. */
  lemma PodTermClosedForm(r: int, maxPods: int)
    requires maxPods > 1
    ensures PodTerm(r, maxPods) == 100.0 * (maxPods - r) as real / (maxPods - 1) as real
  {
    var m := (maxPods - 1) as real;
    calc {
      PodTerm(r, maxPods);
      (-100.0 / m) * r as real + (100.0 * maxPods as real) / m;
      (-100.0 * r as real) / m + (100.0 * maxPods as real) / m;
      (100.0 * maxPods as real - 100.0 * r as real) / m;
    }
  }

  /** The pod term is 100 at one replica, 0 at `maxPods` replicas, and strictly
      decreasing in the replica count. */
  lemma PodTermShape(r1: int, r2: int, maxPods: int)
    requires maxPods > 1
    ensures PodTerm(1, maxPods) == 100.0
    ensures PodTerm(maxPods, maxPods) == 0.0
    ensures r1 < r2 ==> PodTerm(r2, maxPods) < PodTerm(r1, maxPods)
  {
    var m := (maxPods - 1) as real;
    PodTermClosedForm(1, maxPods);
    PodTermClosedForm(maxPods, maxPods);
    PodTermClosedForm(r1, maxPods);
    PodTermClosedForm(r2, maxPods);
    assert 100.0 * m / m == 100.0;
    if r1 < r2 {
      var a := 100.0 * (maxPods - r1) as real;
      var b := 100.0 * (maxPods - r2) as real;
      assert b < a;
      assert b / m < a / m;
    }
  }

  /** With a replica count in `[1, maxPods]` the pod term lies in `[0, 100]`. */
  lemma PodTermBounds(r: int, maxPods: int)
    requires maxPods > 1 && 1 <= r <= maxPods
    ensures 0.0 <= PodTerm(r, maxPods) <= 100.0
    ensures PodTerm(r, maxPods) == 100.0 <==> r == 1
  {
    PodTermShape(1, r, maxPods);
    PodTermShape(r, maxPods, maxPods);
  }

  predicate ReplicasInRange(o: Observation) {
    forall i :: 0 <= i < 3 ==> MinPods <= ObservedReplicas(o)[i] <= MaxPods
  }

  /** The pod-reward loop sums one pod term per service. */
  lemma PodRewardTotalOfObservation(o: Observation)
    ensures PodRewardTotal(ObservedReplicas(o))
              == PodTerm(o.replica1, MaxPods) + PodTerm(o.replica2, MaxPods) + PodTerm(o.replica3, MaxPods)
  {
    var rs := ObservedReplicas(o);
    assert rs[..2] == [o.replica1, o.replica2];
    assert rs[..2][..1] == [o.replica1];
    assert [o.replica1][..0] == [];
    assert PodRewardTotal([o.replica1]) == PodTerm(o.replica1, MaxPods);
    assert PodRewardTotal(rs[..2]) == PodTerm(o.replica1, MaxPods) + PodTerm(o.replica2, MaxPods);
  }

  /** With every replica in `[MinPods, MaxPods]` the average pod reward lies in
      `[0, 100]`, and is 100 exactly when every service runs one replica. */
  lemma AveragePodRewardBounds(o: Observation)
    requires ReplicasInRange(o)
    ensures 0.0 <= AveragePodReward(o) <= 100.0
    ensures AveragePodReward(o) == 100.0 <==> ObservedReplicas(o) == [MinPods, MinPods, MinPods]
  {
    var rs := ObservedReplicas(o);
    assert MinPods <= rs[0] <= MaxPods && MinPods <= rs[1] <= MaxPods && MinPods <= rs[2] <= MaxPods;
    PodTermBounds(o.replica1, MaxPods);
    PodTermBounds(o.replica2, MaxPods);
    PodTermBounds(o.replica3, MaxPods);
    PodRewardTotalOfObservation(o);
  }

  /** Below the SLA the latency reward is in (0, 100], and it is 100 exactly at the
      target ratio, where the gentle and the sharp band meet. */
  lemma LatencyRewardPeak(ratio: real, gaussian: (real, real) -> real)
    requires IsGaussian(gaussian)
    ensures 0.0 < LatencyReward(ratio, gaussian) <= 100.0
    ensures LatencyReward(ratio, gaussian) == 100.0 <==> ratio == LatencyRefValue
  {
    var k := if ratio < LatencyRefValue then 0.06 * D else 10.0 * D;
    assert LatencyReward(ratio, gaussian) == 100.0 * gaussian(k, LatencyRefValue - ratio);
  }

  /** The reward of a valid action: exactly -100 when the SLA is violated (the pod
      term is dropped), otherwise in (0, 100], reaching 100 exactly with one replica
      per service and latency at the target ratio; `done` is false either way. */
  lemma RewardRange(o: Observation, gaussian: (real, real) -> real)
    requires IsGaussian(gaussian) && ReplicasInRange(o)
    ensures !Reward(o, false, gaussian).1
    ensures LatencyRatio(o.latency) >= 1.0 ==> Reward(o, false, gaussian).0 == -100.0
    ensures LatencyRatio(o.latency) < 1.0 ==> 0.0 < Reward(o, false, gaussian).0 <= 100.0
    ensures Reward(o, false, gaussian).0 == 100.0 <==>
              LatencyRatio(o.latency) == LatencyRefValue && ObservedReplicas(o) == [MinPods, MinPods, MinPods]
  {
    AveragePodRewardBounds(o);
    LatencyRewardPeak(LatencyRatio(o.latency), gaussian);
  }

  /** The observation with the replica count of service `i` replaced by `r`. */
  function WithReplica(o: Observation, i: int, r: int): (o': Observation)
    requires 0 <= i < 3
    ensures ObservedReplicas(o') == ObservedReplicas(o)[i := r]
    ensures o'.workloadRate == o.workloadRate && o'.latency == o.latency
  {
    if i == 0 then o.(replica1 := r) else if i == 1 then o.(replica2 := r) else o.(replica3 := r)
  }

  /** Below the SLA, at the same latency, running more replicas of any one
      service (the other two unchanged) earns a strictly smaller reward. */
  lemma RewardPrefersFewerPods(o: Observation, i: int, more: int, gaussian: (real, real) -> real)
    requires 0 <= i < 3
    requires LatencyRatio(o.latency) < 1.0
    requires ObservedReplicas(o)[i] < more
    ensures Reward(WithReplica(o, i, more), false, gaussian).0 < Reward(o, false, gaussian).0
  {
    var o' := WithReplica(o, i, more);
    PodTermShape(ObservedReplicas(o)[i], more, MaxPods);
    PodRewardTotalOfObservation(o);
    PodRewardTotalOfObservation(o');
    assert AveragePodReward(o') < AveragePodReward(o);
  }
}
