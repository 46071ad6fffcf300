/** The environment itself (`AutoScalingEnv`): its episode state, `reset` and
    `step`. `Transition` is the pure specification of one `step`; the class method
    `Step` is proved to implement it, and the lemmas below state what a step
    promises in terms of `Transition`. */
module Environment {
  import opened Results
  import opened Text
  import opened ActionDecoder
  import opened Rewards
  import opened Latency

  /** `len(self.services)`: three services. */
  const Services: nat := 3
  const MaxEpisodeSteps: int := 192

  /** One entry of the workload schedule: the workload and the hyphen-joined
      baseline replica configuration for that step. */
  datatype ScheduleEntry = ScheduleEntry(workload: real, permutation: string)

  /** The workload schedule, keyed by `str(step)`. */
  type Schedule = map<string, ScheduleEntry>

  /** The environment's mutable fields: `steps`, `replicas`, `current_workload_rate`. */
  datatype EnvState = EnvState(steps: int, replicas: seq<int>, workloadRate: real)

  /** What `step` returns: observation, reward, done (the `info` dictionary is always empty). */
  datatype StepResult = StepResult(observation: Observation, reward: real, done: bool)

  /** The state after a step together with its result or the exception it raised. */
  datatype StepOutcome = StepOutcome(state: EnvState, result: Result<StepResult>)

  function Min(a: int, b: int): int {
    if a <= b then a else b
  }

  function Max(a: int, b: int): int {
    if a >= b then a else b
  }

  /** `max(min(x, max_pods), min_pods)`. */
  function ClampReplicas(x: int): (r: int)
    ensures MinPods <= r <= MaxPods
    ensures MinPods <= x <= MaxPods ==> r == x
    ensures x > MaxPods ==> r == MaxPods
    ensures x < MinPods ==> r == MinPods
  {
    Max(Min(x, MaxPods), MinPods)
  }

  /** The baseline with the first `|dirs|` entries moved by their directive and
      clamped, the rest left as they are. */
  function ApplyDirectives(base: seq<int>, dirs: seq<int>): seq<int>
    requires |dirs| <= |base|
  {
    seq(|base|, i requires 0 <= i < |base| => if i < |dirs| then ClampReplicas(base[i] + dirs[i]) else base[i])
  }

  lemma ApplyDirectivesExtend(base: seq<int>, dirs: seq<int>, idx: nat)
    requires idx < |dirs| && idx < |base|
    ensures ApplyDirectives(base, dirs[..idx + 1])
              == ApplyDirectives(base, dirs[..idx])[idx := ClampReplicas(base[idx] + dirs[idx])]
  {
  }

  /** The replica vector after the scaling loop: all directives applied, or, when
      the loop stops with an IndexError, those that fit. */
  function ScaledReplicas(base: seq<int>, dirs: seq<int>): seq<int> {
    if |dirs| > |base| then ApplyDirectives(base, dirs[..|base|]) else ApplyDirectives(base, dirs)
  }

  /** The scaled vector keeps the baseline's length; each of the first `|dirs|`
      counts is the baseline count moved by its directive and clamped to
      `[MinPods, MaxPods]` (the sum itself when in range, the nearer bound
      otherwise), and the remaining counts are the baseline's. With one directive
      per count, every count is in range. */
  lemma ScaledReplicasClamped(base: seq<int>, dirs: seq<int>)
    ensures |ScaledReplicas(base, dirs)| == |base|
    ensures forall i :: 0 <= i < |base| && i < |dirs| ==>
              ScaledReplicas(base, dirs)[i] == ClampReplicas(base[i] + dirs[i])
    ensures forall i :: |dirs| <= i < |base| ==> ScaledReplicas(base, dirs)[i] == base[i]
    ensures |dirs| == |base| ==>
              forall i :: 0 <= i < |base| ==> MinPods <= ScaledReplicas(base, dirs)[i] <= MaxPods
  {
  }

  /** The step counter after a completed step: incremented, and wrapped to 0 when
      it reaches the episode length. */
  function NextStep(steps: int): int {
    if steps + 1 == MaxEpisodeSteps then 0 else steps + 1
  }

  /** One call of `step(action)` from state `s`. Each exception ends the call where
      it is raised, leaving the fields as they were assigned up to that point. */
  function Transition(s: EnvState, action: int, schedule: Schedule, metrics: Metrics,
                      workloadKey: real -> string, gaussian: (real, real) -> real): StepOutcome
  {
    var key := IntToString(s.steps);
    if key !in schedule then StepOutcome(s, Fail(KeyError(key)))
    else
      var entry := schedule[key];
      var s1 := s.(workloadRate := entry.workload);
      match ParseReplicas(entry.permutation)
      case Fail(e) => StepOutcome(s1, Fail(e))
      case Ok(base) =>
        var dirs := Decode(action, Services);
        var rs := ScaledReplicas(base, dirs);
        if |dirs| > |base| then StepOutcome(s1.(replicas := rs), Fail(IndexError(|base|)))
        else
          var s2 := s1.(replicas := rs);
          match GetLatency(metrics, workloadKey, entry.workload, rs)
          case Fail(e) => StepOutcome(s2, Fail(e))
          case Ok(latency) =>
            var obs := Observation(entry.workload, rs[0], rs[1], rs[2], latency);
            var (reward, done) := Reward(obs, false, gaussian);
            StepOutcome(s2.(steps := NextStep(s.steps)), Ok(StepResult(obs, reward, done)))
  }

  const ResetObservation: Observation := Observation(0.0, 1, 1, 1, 0.0)

  class AutoScalingEnv {
    const schedule: Schedule
    const metrics: Metrics
    /** Python's `str` on the workload value, used as the latency-table key. */
    const workloadKey: real -> string
    /** Stands for the two `pow(math.e, ...)` terms of the reward. */
    const gaussian: (real, real) -> real

    var replicas: array<int>
    var currentWorkloadRate: real
    var steps: int

    ghost predicate Valid()
      reads this
    {
      0 <= steps < MaxEpisodeSteps
    }

    function State(): EnvState
      reads this, replicas
    {
      EnvState(steps, replicas[..], currentWorkloadRate)
    }

    constructor (schedule: Schedule, metrics: Metrics, workloadKey: real -> string,
                 gaussian: (real, real) -> real)
      ensures Valid()
      ensures State() == EnvState(0, [1, 1, 1], 0.0)
      ensures fresh(replicas)
      ensures this.schedule == schedule && this.metrics == metrics
      ensures this.workloadKey == workloadKey && this.gaussian == gaussian
    {
      this.schedule := schedule;
      this.metrics := metrics;
      this.workloadKey := workloadKey;
      this.gaussian := gaussian;
      var initial := new int[Services](_ => 1);
      replicas := initial;
      currentWorkloadRate := 0.0;
      steps := 0;
      new;
      assert replicas[..] == [1, 1, 1];
    }

    /** `reset` returns the fixed initial observation and changes no field. */
    method Reset() returns (observation: Observation)
      ensures observation == ResetObservation
    {
      observation := Observation(0.0, 1, 1, 1, 0.0);
    }

    /** The loop of `step` that moves each replica count by its directive and clamps
        it, writing through the alias `new_replicas` into `self.replicas`. It stops
        with an IndexError (`completed` false) at the first directive past the end
        of the replica list. */
    method ScaleReplicas(decodedAction: seq<int>) returns (completed: bool)
      modifies replicas
      ensures completed <==> |decodedAction| <= replicas.Length
      ensures completed ==> replicas[..] == ApplyDirectives(old(replicas[..]), decodedAction)
      ensures !completed ==> replicas[..] == ApplyDirectives(old(replicas[..]), decodedAction[..replicas.Length])
    {
      ghost var base := replicas[..];
      var newReplicas := replicas;
      var idx := 0;
      while idx < |decodedAction|
        invariant 0 <= idx <= |decodedAction| && idx <= replicas.Length
        invariant newReplicas == replicas
        invariant replicas[..] == ApplyDirectives(base, decodedAction[..idx])
      {
        if idx >= replicas.Length {
          return false;
        }
        ApplyDirectivesExtend(base, decodedAction, idx);
        var updatedReplicas := replicas[idx] + decodedAction[idx];
        newReplicas[idx] := Max(Min(updatedReplicas, MaxPods), MinPods);
        idx := idx + 1;
      }
      assert decodedAction[..|decodedAction|] == decodedAction;
      return true;
    }

    method Step(action: int) returns (result: Result<StepResult>)
      requires Valid()
      modifies this
      ensures Valid()
      ensures replicas == old(replicas) || fresh(replicas)
      ensures StepOutcome(State(), result)
                == Transition(old(State()), action, schedule, metrics, workloadKey, gaussian)
    {
      var key := IntToString(steps);
      if key !in schedule {
        return Fail(KeyError(key));
      }
      currentWorkloadRate := schedule[key].workload;
      var permutation := schedule[key].permutation;

      var parsed := ParseReplicas(permutation);
      if parsed.Fail? {
        return Fail(parsed.error);
      }
      var base := parsed.value;
      replicas := new int[|base|](i requires 0 <= i < |base| => base[i]);
      assert replicas[..] == base;
      var workloadRate := currentWorkloadRate;

      var decodedAction := DecimalToBase3(action, Services);

      var scaled := ScaleReplicas(decodedAction);
      if !scaled {
        return Fail(IndexError(replicas.Length));
      }
      var newReplicas := replicas;

      var averageLatency := GetLatency(metrics, workloadKey, workloadRate, newReplicas[..]);
      if averageLatency.Fail? {
        return Fail(averageLatency.error);
      }
      var observation := Observation(workloadRate, newReplicas[0], newReplicas[1], newReplicas[2],
                                     averageLatency.value);
      var reward, done := CalculateReward(observation, false, gaussian);

      steps := steps + 1;
      if steps == MaxEpisodeSteps {
        steps := 0;
      }
      result := Ok(StepResult(observation, reward, done));
    }
  }

  /** The counter after `k` completed steps from `steps`. */
  function StepsAfter(steps: int, k: nat): int {
    if k == 0 then steps else NextStep(StepsAfter(steps, k - 1))
  }

  /** The counter stays in `[0, MaxEpisodeSteps)`: a completed step from
      `MaxEpisodeSteps - 1` sets it to 0 and any other completed step adds exactly
      1; a step that raises leaves it unchanged, and a missing schedule entry
      changes no field at all. */
  lemma StepCounterLifecycle(s: EnvState, action: int, schedule: Schedule, metrics: Metrics,
                             workloadKey: real -> string, gaussian: (real, real) -> real, t: StepOutcome)
    requires 0 <= s.steps < MaxEpisodeSteps
    requires t == Transition(s, action, schedule, metrics, workloadKey, gaussian)
    ensures 0 <= t.state.steps < MaxEpisodeSteps
    ensures t.result.Ok? && s.steps == MaxEpisodeSteps - 1 ==> t.state.steps == 0
    ensures t.result.Ok? && s.steps != MaxEpisodeSteps - 1 ==> t.state.steps == s.steps + 1
    ensures t.result.Fail? ==> t.state.steps == s.steps
    ensures IntToString(s.steps) !in schedule ==> t == StepOutcome(s, Fail(KeyError(IntToString(s.steps))))
  {
  }

  /** After `k` completed steps the counter is `(steps + k) mod MaxEpisodeSteps`,
      so an episode of `MaxEpisodeSteps` completed steps returns it to its start. */
  lemma {:induction false} StepsAfterWraps(steps: int, k: nat)
    requires 0 <= steps < MaxEpisodeSteps
    ensures StepsAfter(steps, k) == (steps + k) % MaxEpisodeSteps
  {
    if k > 0 {
      StepsAfterWraps(steps, k - 1);
    }
  }

  /** What a step that got past the schedule lookup and the parse leaves in the
      fields, whether it then completes or raises: the workload of the entry and the
      parsed baseline scaled by the decoded directives. */
  lemma StepScalesBaseline(s: EnvState, action: int, schedule: Schedule, metrics: Metrics,
                           workloadKey: real -> string, gaussian: (real, real) -> real,
                           t: StepOutcome, base: seq<int>)
    requires t == Transition(s, action, schedule, metrics, workloadKey, gaussian)
    requires IntToString(s.steps) in schedule
    requires ParseReplicas(schedule[IntToString(s.steps)].permutation) == Ok(base)
    ensures t.state.workloadRate == schedule[IntToString(s.steps)].workload
    ensures t.state.replicas == ScaledReplicas(base, Decode(action, Services))
    ensures t.result == Fail(IndexError(|base|)) <==> |Decode(action, Services)| > |base|
    ensures t.result.Ok? ==>
              && |Decode(action, Services)| <= |base|
              && var rs := t.state.replicas;
                 t.result.value.observation
                   == Observation(t.state.workloadRate, rs[0], rs[1], rs[2], t.result.value.observation.latency)
  {
  }

  /** The replica vector a step leaves in the state: the schedule's baseline with
      each of the first `|dirs|` counts moved by its directive and clamped to
      `[MinPods, MaxPods]` (the sum itself when in range, the nearer bound
      otherwise), the remaining counts as parsed. */
  lemma StepClampsReplicas(s: EnvState, action: int, schedule: Schedule, metrics: Metrics,
                           workloadKey: real -> string, gaussian: (real, real) -> real,
                           t: StepOutcome, base: seq<int>)
    requires t == Transition(s, action, schedule, metrics, workloadKey, gaussian)
    requires IntToString(s.steps) in schedule
    requires ParseReplicas(schedule[IntToString(s.steps)].permutation) == Ok(base)
    ensures |t.state.replicas| == |base|
    ensures forall i :: 0 <= i < |base| && i < |Decode(action, Services)| ==>
              t.state.replicas[i] == ClampReplicas(base[i] + Decode(action, Services)[i])
    ensures forall i :: |Decode(action, Services)| <= i < |base| ==> t.state.replicas[i] == base[i]
  {
    StepScalesBaseline(s, action, schedule, metrics, workloadKey, gaussian, t, base);
    ScaledReplicasClamped(base, Decode(action, Services));
  }

  /** With one baseline count per service and an action in `[0, 3^Services)`,
      every count a step leaves in the state is in `[MinPods, MaxPods]`. */
  lemma StepReplicasInRange(s: EnvState, action: int, schedule: Schedule, metrics: Metrics,
                            workloadKey: real -> string, gaussian: (real, real) -> real,
                            t: StepOutcome, base: seq<int>)
    requires t == Transition(s, action, schedule, metrics, workloadKey, gaussian)
    requires IntToString(s.steps) in schedule
    requires ParseReplicas(schedule[IntToString(s.steps)].permutation) == Ok(base)
    requires |base| == Services && 0 <= action < Pow3(Services)
    ensures forall i :: 0 <= i < |t.state.replicas| ==> MinPods <= t.state.replicas[i] <= MaxPods
  {
    StepScalesBaseline(s, action, schedule, metrics, workloadKey, gaussian, t, base);
    DecodedActionInRange(base, action);
  }

  /** An action in `[0, 3^Services)` applied to a baseline of one count per service
      leaves every count in `[MinPods, MaxPods]`. */
  lemma DecodedActionInRange(base: seq<int>, action: int)
    requires |base| == Services && 0 <= action < Pow3(Services)
    ensures forall i :: 0 <= i < |base| ==>
              MinPods <= ScaledReplicas(base, Decode(action, Services))[i] <= MaxPods
  {
    DecodeLength(action, Services);
    ScaledReplicasClamped(base, Decode(action, Services));
  }

  /** Every replica count in the observation of a completed step lies in
      `[MinPods, MaxPods]`: the observation shows the first three counts of the
      scaled baseline, and each of them was moved by a directive and clamped. */
  lemma StepObservationInRange(s: EnvState, action: int, schedule: Schedule, metrics: Metrics,
                               workloadKey: real -> string, gaussian: (real, real) -> real,
                               t: StepOutcome, base: seq<int>)
    requires t == Transition(s, action, schedule, metrics, workloadKey, gaussian)
    requires IntToString(s.steps) in schedule
    requires ParseReplicas(schedule[IntToString(s.steps)].permutation) == Ok(base)
    requires t.result.Ok?
    ensures ReplicasInRange(t.result.value.observation)
  {
    StepScalesBaseline(s, action, schedule, metrics, workloadKey, gaussian, t, base);
    ObservedScaledInRange(t.result.value.observation, base, Decode(action, Services));
  }

  /** A first three counts taken from a baseline scaled by at least three
      directives are all in `[MinPods, MaxPods]`. */
  lemma ObservedScaledInRange(obs: Observation, base: seq<int>, dirs: seq<int>)
    requires Services <= |dirs| <= |base|
    requires var rs := ScaledReplicas(base, dirs);
             obs.replica1 == rs[0] && obs.replica2 == rs[1] && obs.replica3 == rs[2]
    ensures ReplicasInRange(obs)
  {
    ScaledReplicasClamped(base, dirs);
    assert forall i :: 0 <= i < Services ==> ObservedReplicas(obs)[i] == ClampReplicas(base[i] + dirs[i]);
  }

  /** A schedule entry whose configuration does not parse raises a ValueError
      naming the offending piece; only the workload has been stored by then. */
  lemma StepRejectsBadPermutation(s: EnvState, action: int, schedule: Schedule, metrics: Metrics,
                                  workloadKey: real -> string, gaussian: (real, real) -> real, t: StepOutcome)
    requires t == Transition(s, action, schedule, metrics, workloadKey, gaussian)
    requires IntToString(s.steps) in schedule
    requires ParseReplicas(schedule[IntToString(s.steps)].permutation).Fail?
    ensures t.state == s.(workloadRate := schedule[IntToString(s.steps)].workload)
    ensures t.result.Fail? && t.result.error.ValueError?
  {
  }

  /** A step whose baseline has one count per service raises an IndexError exactly
      when the action is `3^Services` or more, because only then does the decoded
      tuple hold more directives than there are replica counts. */
  lemma StepRejectsLargeActions(s: EnvState, action: int, schedule: Schedule, metrics: Metrics,
                                workloadKey: real -> string, gaussian: (real, real) -> real,
                                t: StepOutcome, base: seq<int>)
    requires t == Transition(s, action, schedule, metrics, workloadKey, gaussian)
    requires IntToString(s.steps) in schedule
    requires ParseReplicas(schedule[IntToString(s.steps)].permutation) == Ok(base)
    requires |base| == Services
    ensures t.result == Fail(IndexError(Services)) <==> action >= Pow3(Services)
  {
    StepScalesBaseline(s, action, schedule, metrics, workloadKey, gaussian, t, base);
    DecodeLength(action, Services);
  }

  /** Once the replicas are scaled, the step completes exactly when the latency
      table holds the hyphen-joined replica label and, under it, the workload's
      label; the observed latency is then that entry, and otherwise the step raises
      a KeyError for the missing label. */
  lemma StepLooksUpLatency(s: EnvState, action: int, schedule: Schedule, metrics: Metrics,
                           workloadKey: real -> string, gaussian: (real, real) -> real,
                           t: StepOutcome, base: seq<int>)
    requires t == Transition(s, action, schedule, metrics, workloadKey, gaussian)
    requires IntToString(s.steps) in schedule
    requires ParseReplicas(schedule[IntToString(s.steps)].permutation) == Ok(base)
    requires |Decode(action, Services)| <= |base|
    ensures var configLabel := JoinReplicas(t.state.replicas);
            var workload := workloadKey(schedule[IntToString(s.steps)].workload);
            t.result.Ok? <==> configLabel in metrics && workload in metrics[configLabel]
    ensures t.result.Ok? ==>
              t.result.value.observation.latency
                == metrics[JoinReplicas(t.state.replicas)][workloadKey(t.state.workloadRate)]
    ensures t.result.Fail? ==> t.result.error.KeyError?
  {
  }

  /** The reward a completed step reports: `done` is never set, an SLA violation
      gives exactly -100, and otherwise the reward lies in (0, 100]. */
  lemma StepReward(s: EnvState, action: int, schedule: Schedule, metrics: Metrics,
                   workloadKey: real -> string, gaussian: (real, real) -> real, t: StepOutcome)
    requires IsGaussian(gaussian)
    requires t == Transition(s, action, schedule, metrics, workloadKey, gaussian)
    requires t.result.Ok?
    ensures !t.result.value.done
    ensures LatencyRatio(t.result.value.observation.latency) >= 1.0 ==> t.result.value.reward == -100.0
    ensures LatencyRatio(t.result.value.observation.latency) < 1.0 ==> 0.0 < t.result.value.reward <= 100.0
  {
    var base := ParseReplicas(schedule[IntToString(s.steps)].permutation).value;
    StepObservationInRange(s, action, schedule, metrics, workloadKey, gaussian, t, base);
    RewardRange(t.result.value.observation, gaussian);
  }

  /** A step completes once the schedule entry is present, its configuration
      parses, the decoded directives fit and the latency table answers; it then
      reports the scaled replicas, the table latency and the reward of the
      resulting observation, and advances the counter. */
  lemma StepCompletes(s: EnvState, action: int, schedule: Schedule, metrics: Metrics,
                      workloadKey: real -> string, gaussian: (real, real) -> real,
                      base: seq<int>, rs: seq<int>, workload: real, latency: real,
                      obs: Observation, reward: real, done: bool)
    requires IntToString(s.steps) in schedule
    requires schedule[IntToString(s.steps)].workload == workload
    requires ParseReplicas(schedule[IntToString(s.steps)].permutation) == Ok(base)
    requires |Decode(action, Services)| <= |base|
    requires ScaledReplicas(base, Decode(action, Services)) == rs
    requires GetLatency(metrics, workloadKey, workload, rs) == Ok(latency)
    requires |rs| >= Services && obs == Observation(workload, rs[0], rs[1], rs[2], latency)
    requires Reward(obs, false, gaussian) == (reward, done)
    ensures Transition(s, action, schedule, metrics, workloadKey, gaussian)
              == StepOutcome(EnvState(NextStep(s.steps), rs, workload), Ok(StepResult(obs, reward, done)))
  {
  }

  /** The label `1-1-1` parses to three single replicas. */
  lemma ParseOnesLabel()
    ensures ParseReplicas("1-1-1") == Ok([1, 1, 1])
  {
    var v := [1, 1, 1];
    assert JoinReplicas(v) == "1-1-1";
    ReplicaLabelRoundTrip(v);
  }

  /** The label `4-4-4` parses to three services at `MaxPods`. */
  lemma ParseFoursLabel()
    ensures ParseReplicas("4-4-4") == Ok([4, 4, 4])
  {
    var v := [4, 4, 4];
    assert JoinReplicas(v) == "4-4-4";
    ReplicaLabelRoundTrip(v);
  }

  /** Uniform baselines scaled by uniform directives: 4+1 saturates at `MaxPods`
      and 1+0 stays. */
  lemma ScaledUniformLabels()
    ensures ScaledReplicas([4, 4, 4], [1, 1, 1]) == [4, 4, 4]
    ensures ScaledReplicas([1, 1, 1], [0, 0, 0]) == [1, 1, 1]
  {
    assert ApplyDirectives([4, 4, 4], [1, 1, 1]) == [4, 4, 4];
    assert ApplyDirectives([1, 1, 1], [0, 0, 0]) == [1, 1, 1];
  }

  /** A latency table with `metrics["1-1-1"]["10.0"] == 0.3` answers 0.3 for replicas
      `[1, 1, 1]` at workload 10.0. */
  lemma NoOpLatency(metrics: Metrics, workloadKey: real -> string)
    requires "1-1-1" in metrics && "10.0" in metrics["1-1-1"] && metrics["1-1-1"]["10.0"] == 0.3
    requires workloadKey(10.0) == "10.0"
    ensures GetLatency(metrics, workloadKey, 10.0, [1, 1, 1]) == Ok(0.3)
  {
    assert JoinReplicas([1, 1, 1]) == "1-1-1";
  }

  /** Minimal replicas and a latency ratio of 0.6: the pod half is 50 and the
      latency half is 50 times the gentle Gaussian at distance 0.2. */
  lemma NoOpReward(gaussian: (real, real) -> real)
    ensures Reward(Observation(10.0, 1, 1, 1, 0.3), false, gaussian)
              == (50.0 + 50.0 * gaussian(0.6, 0.2), false)
  {
    var obs := Observation(10.0, 1, 1, 1, 0.3);
    PodTermShape(1, 1, MaxPods);
    assert [1, 1, 1][..2] == [1, 1] && [1, 1][..1] == [1] && [1][..0] == [];
    assert AveragePodReward(obs) == 100.0;
  }

  /** The pieces of the no-op step below, each computed on its own: the schedule
      entry, the parse, the decoded action, the scaling, the latency and the
      reward. */
  lemma NoOpStepParts(s: EnvState, action: int, schedule: Schedule, metrics: Metrics,
                      workloadKey: real -> string, gaussian: (real, real) -> real)
    requires s.steps == 0 && action == 13
    requires "0" in schedule && schedule["0"] == ScheduleEntry(10.0, "1-1-1")
    requires "1-1-1" in metrics && "10.0" in metrics["1-1-1"] && metrics["1-1-1"]["10.0"] == 0.3
    requires workloadKey(10.0) == "10.0"
    ensures IntToString(s.steps) in schedule
    ensures schedule[IntToString(s.steps)] == ScheduleEntry(10.0, "1-1-1")
    ensures ParseReplicas(schedule[IntToString(s.steps)].permutation) == Ok([1, 1, 1])
    ensures |Decode(action, Services)| == Services
    ensures ScaledReplicas([1, 1, 1], Decode(action, Services)) == [1, 1, 1]
    ensures GetLatency(metrics, workloadKey, 10.0, [1, 1, 1]) == Ok(0.3)
    ensures Reward(Observation(10.0, 1, 1, 1, 0.3), false, gaussian) == (50.0 + 50.0 * gaussian(0.6, 0.2), false)
    ensures NextStep(s.steps) == 1
  {
    assert IntToString(0) == "0";
    ParseOnesLabel();
    DecodeNoOp();
    ScaledUniformLabels();
    NoOpLatency(metrics, workloadKey);
    NoOpReward(gaussian);
  }

  /** A no-op action (13) at step 0, whatever the current replicas, with a
      schedule entry of baseline `1-1-1` and workload 10.0 and a table latency
      of 0.3 for it: the observation is `(10.0, 1, 1, 1, 0.3)`, the latency
      ratio 0.6 lands in the gentle band, and the counter moves to 1. */
  lemma ExampleNoOpStep(s: EnvState, action: int, schedule: Schedule, metrics: Metrics,
                        workloadKey: real -> string, gaussian: (real, real) -> real)
    requires s.steps == 0 && action == 13
    requires "0" in schedule && schedule["0"] == ScheduleEntry(10.0, "1-1-1")
    requires "1-1-1" in metrics && "10.0" in metrics["1-1-1"] && metrics["1-1-1"]["10.0"] == 0.3
    requires workloadKey(10.0) == "10.0"
    ensures Transition(s, action, schedule, metrics, workloadKey, gaussian)
              == StepOutcome(EnvState(1, [1, 1, 1], 10.0),
                             Ok(StepResult(Observation(10.0, 1, 1, 1, 0.3),
                                           50.0 + 50.0 * gaussian(0.6, 0.2), false)))
  {
    NoOpStepParts(s, action, schedule, metrics, workloadKey, gaussian);
    var rs := [1, 1, 1];
    assert rs[0] == 1 && rs[1] == 1 && rs[2] == 1;
    StepCompletes(s, action, schedule, metrics, workloadKey, gaussian, rs, rs, 10.0, 0.3,
                  Observation(10.0, 1, 1, 1, 0.3), 50.0 + 50.0 * gaussian(0.6, 0.2), false);
  }

  /** Scaling up a saturated baseline `4-4-4` with action 26 (all +1) leaves every
      service at `MaxPods`. */
  lemma ExampleSaturation(s: EnvState, schedule: Schedule, metrics: Metrics,
                          workloadKey: real -> string, gaussian: (real, real) -> real)
    requires IntToString(s.steps) in schedule
    requires schedule[IntToString(s.steps)].permutation == "4-4-4"
    ensures Transition(s, 26, schedule, metrics, workloadKey, gaussian).state.replicas == [4, 4, 4]
  {
    ParseFoursLabel();
    DecodeAllUp();
    ScaledUniformLabels();
    var t := Transition(s, 26, schedule, metrics, workloadKey, gaussian);
    StepScalesBaseline(s, 26, schedule, metrics, workloadKey, gaussian, t, [4, 4, 4]);
  }
}
