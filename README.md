# AutoScalingEnv in Dafny

A Dafny model of `AutoScalingEnv`, a reinforcement-learning environment that
scales three services horizontally. Each `step(action)` does the following:

- reads the workload and a baseline replica configuration (for example `"2-1-3"`)
  for the current step from a workload schedule;
- decodes the integer action (0..26) into one directive per service
  (-1 scale down, 0 keep, +1 scale up), writing it in base 3;
- applies the directives with clamping to `[1, 4]`;
- looks up the latency of the resulting configuration in a latency table;
- returns the observation `(workload, r1, r2, r3, latency)` with a reward that
  weighs pod utilisation against latency relative to an SLA of 0.5;
- advances a step counter that wraps to 0 after 192 steps.

`reset()` returns the fixed observation `(0.0, 1, 1, 1, 0.0)`.

Modules, one per file:

- `Results` (`results.dfy`): the Python exceptions the core can raise, as a
  `Result` datatype. They are `KeyError`, `ValueError` and `IndexError`.
- `Text` (`text.dfy`): `str.split`, `str.join`, `str(int)` and `int(str)` on
  `seq<char>`, with their round trips.
- `ActionDecoder` (`action_decoder.dfy`): `_decimal_to_base3`. It is a method
  with the source's two loops, proved equal to the function `Decode`, with the
  re-encoding `Encode` as its inverse.
- `Rewards` (`rewards.dfy`): `_calculate_reward`. It is a method with the
  source's loop and branches, proved equal to the function `Reward`, with lemmas
  about the pod term, the latency term and the reward range.
- `Latency` (`latency.dfy`): `_get_latency`. It covers the configuration labels
  `'-'.join(map(str, replicas))` and their inverse, the parse of the schedule's
  `permutation`.
- `Environment` (`environment.dfy`): the class `AutoScalingEnv`. It has the
  fields `replicas` (an array replaced and then updated in place),
  `currentWorkloadRate` and `steps`, and the methods `constructor`, `Reset` and
  `Step`.

  `Step` is proved to implement the pure function `Transition`. The lemmas about
  `Transition` state what one step promises: its counter, clamping, latency
  lookup, reward, and each exception path. A step that raises leaves the fields
  as the source leaves them at that point. The schedule lookup fails before any
  field is assigned. A bad `permutation` leaves only the workload stored. A
  decoded action longer than the baseline leaves the replicas partly scaled.

Two values are parameters of the model the code does not compute:

- `gaussian(k, t)` stands for `e^(-k·t²)`. Only its range is assumed: for
  `k > 0` it lies in (0, 1] and equals 1 exactly at `t == 0`.
- `workloadKey` stands for Python's `str` on the workload float.

## Model

| member | source | states |
|---|---|---|
| Text.ParseInt | autoscaling_gym/envs/AutoScalingEnv.py:63 | `int(x)` succeeds exactly on non-empty runs of ASCII decimal digits, with a non-negative value; any other piece raises a ValueError naming it |
| Text.IntToStringRoundTrip | autoscaling_gym/envs/AutoScalingEnv.py:63 | `int(str(n)) == n` for every natural number `n` |
| Text.Split | autoscaling_gym/envs/AutoScalingEnv.py:63 | `split` returns at least one piece, and no piece contains the separator |
| Text.JoinSplit | autoscaling_gym/envs/AutoScalingEnv.py:63 | joining the pieces of a split with the same separator gives back the string |
| Text.SplitJoin | autoscaling_gym/envs/AutoScalingEnv.py:169 | splitting a join gives back the pieces when none contains the separator |
| Latency.ParseReplicas | autoscaling_gym/envs/AutoScalingEnv.py:63 | a parsed configuration has at least one count, each non-negative; a failure is a ValueError for a hyphen-free piece |
| Latency.GetLatency | autoscaling_gym/envs/AutoScalingEnv.py:168-173 | succeeds exactly when the configuration label and then the workload label are keys; the value is that entry; otherwise it is a KeyError naming the first missing key |
| Latency.ReplicaLabelRoundTrip | autoscaling_gym/envs/AutoScalingEnv.py:169 | parsing the label `join('-', map(str, v))` gives back `v` for every non-empty vector of non-negative counts |
| Latency.ReplicaLabelInjective | autoscaling_gym/envs/AutoScalingEnv.py:169-171 | distinct replica vectors get distinct latency-table labels |
| ActionDecoder.Decode | autoscaling_gym/envs/AutoScalingEnv.py:175-185 | the decoded tuple has at least `n` entries, each in {-1, 0, 1} |
| ActionDecoder.DecimalToBase3 | autoscaling_gym/envs/AutoScalingEnv.py:175-185 | the two loops (repeated division by 3, then zero padding) compute `Decode` |
| ActionDecoder.PadLeftDigits | autoscaling_gym/envs/AutoScalingEnv.py:182-183 | padding adds only base-3 digits (zeros) |
| ActionDecoder.PadLeftZeros | autoscaling_gym/envs/AutoScalingEnv.py:182-183 | padding prepends exactly `n - len` zeros, and nothing when the digits already reach `n` |
| ActionDecoder.Base3DigitsLength | autoscaling_gym/envs/AutoScalingEnv.py:177-180 | the first loop yields at most `n` digits exactly when `a < 3^n` |
| ActionDecoder.DecodeLength | autoscaling_gym/envs/AutoScalingEnv.py:175-185 | exactly `n` directives iff `a < 3^n`; a larger action yields more than `n` |
| ActionDecoder.DecodeEncodeRoundTrip | autoscaling_gym/envs/AutoScalingEnv.py:175-185 | for `0 <= a < 3^n`, the sum of `(d_i + 1) * 3^(n-1-i)` over the decoded tuple is `a` |
| ActionDecoder.EncodeDecodeRoundTrip | autoscaling_gym/envs/AutoScalingEnv.py:175-185 | every tuple of directives encodes to an action in `[0, 3^len)` that decodes back to it |
| ActionDecoder.DecodeNonPositive | autoscaling_gym/envs/AutoScalingEnv.py:177-185 | a non-positive action decodes to `n` scale-down directives, like 0 |
| ActionDecoder.DecodeAllDown | autoscaling_gym/envs/AutoScalingEnv.py:175-185 | action 0 decodes to `(-1, -1, -1)` |
| ActionDecoder.DecodeNoOp | autoscaling_gym/envs/AutoScalingEnv.py:175-185 | action 13 decodes to `(0, 0, 0)` |
| ActionDecoder.DecodeAllUp | autoscaling_gym/envs/AutoScalingEnv.py:175-185 | action 26 decodes to `(1, 1, 1)` |
| Rewards.CalculateReward | autoscaling_gym/envs/AutoScalingEnv.py:108-166 | computes `Reward`; the invalid-action branch gives -100 with `done`; otherwise `done` is false, and a latency ratio of 1 or more gives exactly -100 |
| Rewards.PodTermClosedForm | autoscaling_gym/envs/AutoScalingEnv.py:139-140 | the per-replica pod term equals `100 * (max - r) / (max - 1)` |
| Rewards.PodTermShape | autoscaling_gym/envs/AutoScalingEnv.py:139-140 | the pod term is 100 at one replica and 0 at `max_pods`, and strictly decreasing |
| Rewards.PodTermBounds | autoscaling_gym/envs/AutoScalingEnv.py:139-140 | for `1 <= r <= max` the pod term is in `[0, 100]`, and 100 exactly at `r == 1` |
| Rewards.PodRewardTotalOfObservation | autoscaling_gym/envs/AutoScalingEnv.py:137-140 | the pod loop sums one pod term per observed service |
| Rewards.AveragePodRewardBounds | autoscaling_gym/envs/AutoScalingEnv.py:137-141 | with replicas in `[1, 4]` the average pod reward is in `[0, 100]`, and 100 exactly with one replica each |
| Rewards.LatencyRewardPeak | autoscaling_gym/envs/AutoScalingEnv.py:153-157 | below the SLA the latency reward is in (0, 100], and 100 exactly at the target ratio 0.8 |
| Rewards.RewardRange | autoscaling_gym/envs/AutoScalingEnv.py:108-166 | `done` is false; reward -100 iff the ratio is at least 1, else in (0, 100]; 100 exactly at ratio 0.8 with one replica each |
| Rewards.RewardPrefersFewerPods | autoscaling_gym/envs/AutoScalingEnv.py:136-164 | below the SLA and at equal latency, more replicas of any one of the three services, the others unchanged, give a strictly smaller reward |
| Environment.ClampReplicas | autoscaling_gym/envs/AutoScalingEnv.py:74 | the clamp lies in `[1, 4]`, is the identity inside it and saturates at each bound (4 + 1 gives 4, 1 - 1 gives 1) |
| Environment.ScaledReplicasClamped | autoscaling_gym/envs/AutoScalingEnv.py:71-74 | the loop keeps the length; counts with a directive are moved and clamped, the others are the baseline's |
| Environment.AutoScalingEnv.constructor | autoscaling_gym/envs/AutoScalingEnv.py:10-20 | a new environment has `steps == 0`, replicas `[1, 1, 1]` and workload 0.0 |
| Environment.AutoScalingEnv.Reset | autoscaling_gym/envs/AutoScalingEnv.py:46-56 | returns `(0.0, 1, 1, 1, 0.0)`; it has no `modifies` clause, so no field changes, the step counter included |
| Environment.AutoScalingEnv.ScaleReplicas | autoscaling_gym/envs/AutoScalingEnv.py:71-74 | the loop through the alias `new_replicas` applies every directive in place, or stops with an IndexError at the first directive past the end |
| Environment.AutoScalingEnv.Step | autoscaling_gym/envs/AutoScalingEnv.py:58-94 | new fields and the result (or exception) are exactly `Transition` of the old fields; the counter stays in `[0, 192)` |
| Environment.StepCounterLifecycle | autoscaling_gym/envs/AutoScalingEnv.py:60-92 | the counter stays in `[0, 192)`; a completed step adds 1 or wraps 191 to 0; a failed step keeps it; a missing entry changes nothing |
| Environment.StepsAfterWraps | autoscaling_gym/envs/AutoScalingEnv.py:89-92 | after `k` completed steps the counter is `(steps + k) mod 192` |
| Environment.StepScalesBaseline | autoscaling_gym/envs/AutoScalingEnv.py:60-85 | past lookup and parse, the step stores the workload and the scaled baseline, not the previous replicas; IndexError iff more directives than counts; the observation shows them |
| Environment.StepClampsReplicas | autoscaling_gym/envs/AutoScalingEnv.py:63-74 | each stored count with a directive is baseline plus directive, clamped to `[1, 4]`; the rest are as parsed |
| Environment.StepReplicasInRange | autoscaling_gym/envs/AutoScalingEnv.py:63-74 | with three baseline counts and an action in `[0, 27)`, every stored count is in `[1, 4]` |
| Environment.DecodedActionInRange | autoscaling_gym/envs/AutoScalingEnv.py:68-74 | an action in `[0, 27)` applied to three counts leaves each in `[1, 4]` |
| Environment.StepObservationInRange | autoscaling_gym/envs/AutoScalingEnv.py:79-85 | the three observed replica counts of a completed step are in `[1, 4]` |
| Environment.StepRejectsBadPermutation | autoscaling_gym/envs/AutoScalingEnv.py:60-63 | an unparseable `permutation` is a ValueError after the workload has been stored, and nothing else changes |
| Environment.StepRejectsLargeActions | autoscaling_gym/envs/AutoScalingEnv.py:68-73 | with three baseline counts, the step raises an IndexError exactly when the action is 27 or more |
| Environment.StepLooksUpLatency | autoscaling_gym/envs/AutoScalingEnv.py:77 | once scaled, the step completes iff both latency-table keys exist; the latency is that entry; otherwise a KeyError |
| Environment.StepReward | autoscaling_gym/envs/AutoScalingEnv.py:87 | a completed step never reports `done`; SLA violation gives exactly -100; otherwise the reward is in (0, 100] |
| Environment.StepCompletes | autoscaling_gym/envs/AutoScalingEnv.py:58-94 | entry, parse, fitting action and latency entry yield the scaled replicas, that latency, its reward and the next counter |
| Environment.ExampleNoOpStep | autoscaling_gym/envs/AutoScalingEnv.py:58-94 | action 13 at step 0, baseline `1-1-1`, workload 10.0, latency 0.3: observation `(10.0, 1, 1, 1, 0.3)`, reward `50 + 50·gaussian(0.6, 0.2)`, counter 1 |
| Environment.ExampleSaturation | autoscaling_gym/envs/AutoScalingEnv.py:71-74 | action 26 on baseline `4-4-4` leaves every service at 4 |

## Left out

- Loading the two JSON files. The schedule and the latency table are inputs to
  the constructor: `Schedule` maps `str(step)` to the entry's `workload` and
  `permutation`, and `Metrics` is a two-level map.
- A schedule entry with no `"workload"` or `"permutation"` field is not
  modelled. Every entry is a record with both.
- The innermost `["latency"]` level of the latency table: each entry is the
  latency itself, so a missing `"latency"` field is not modelled.
- `float(self.current_workload_rate)` is the identity, because workloads are
  reals.
- The gym `action_space` and `observation_space`, `close`, `render`, the gym
  registration and the `info` dictionary (always empty). The `print` calls are
  left out.
- The `seed` and `options` parameters of `reset` (unused).
- Floating point: all arithmetic is on exact reals, so rounding, infinities and
  NaN latencies are not modelled.
- `math.e` raised to a power is the parameter `gaussian`, assumed only to lie in
  (0, 1] for a positive rate and to equal 1 exactly at distance 0. No numeric
  reward values beyond that are derived.
- Rewards.LatencyRewardPeak: does not state that the reward decreases with
  distance from the target ratio, because the range assumed of `gaussian` says
  nothing about monotonicity.
- Python's `str` on a float is the parameter `workloadKey`.
- Text.ParseInt: does not accept the surrounding whitespace, the leading `+`
  the digit-group underscores, or the non-ASCII Unicode decimal digits (such
  as Arabic-Indic or full-width digits) that Python's `int()` also accepts.
  The schedule's configurations use plain ASCII digits, written by `str(int)`.
- The reward docstring gives the range `[0, 100]`, but the code returns -100
  on an SLA violation. The model follows the code (Rewards.RewardRange).
- `reset()` leaves the step counter and the replicas as they are, as the code
  does. Only `step()` wraps the counter.
- `is_invalid_action` is a local constant `False` in the code. Its branch is
  kept behind a parameter of `Reward` and `CalculateReward`, and `Step` passes
  false.
- The test script and the package metadata are not part of this model.
