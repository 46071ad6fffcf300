/** Latency lookup (`_get_latency`) and the replica-configuration labels that key
    both the schedule's `permutation` field and the latency table. */
module Latency {
  import opened Results
  import opened Text

  /** Latency table: replica-configuration label, then workload label, to latency. */
  type Metrics = map<string, map<string, real>>

  /** `map(str, replicas)`. */
  function ReplicaStrings(replicas: seq<int>): (parts: seq<string>)
    ensures |parts| == |replicas|
  {
    if replicas == [] then [] else [IntToString(replicas[0])] + ReplicaStrings(replicas[1..])
  }

  /** `'-'.join(map(str, replicas))`. */
  function JoinReplicas(replicas: seq<int>): string {
    Join(ReplicaStrings(replicas), '-')
  }

  /** `[int(x) for x in parts]`, failing at the first part `int` rejects. */
  function ParseAll(parts: seq<string>): (r: Result<seq<int>>)
    ensures r.Ok? ==> |r.value| == |parts|
    ensures r.Ok? ==> forall i :: 0 <= i < |r.value| ==> r.value[i] >= 0
    ensures r.Fail? ==> r.error.ValueError? && r.error.literal in parts
  {
    if parts == [] then Ok([])
    else
      match ParseInt(parts[0])
      case Fail(e) => Fail(e)
      case Ok(v) =>
        match ParseAll(parts[1..])
        case Fail(e) => Fail(e)
        case Ok(vs) => Ok([v] + vs)
  }

  /** `[int(x) for x in permutation.split("-")]`. */
  function ParseReplicas(permutation: string): (r: Result<seq<int>>)
    ensures r.Ok? ==> |r.value| >= 1
    ensures r.Ok? ==> forall i :: 0 <= i < |r.value| ==> r.value[i] >= 0
    ensures r.Fail? ==> r.error.ValueError? && '-' !in r.error.literal
  {
    ParseAll(Split(permutation, '-'))
  }

  /** `metrics[join(replicas)][workloadKey(workloadRate)]`; a missing key is a
      KeyError naming that key, never a default latency. */
  function GetLatency(metrics: Metrics, workloadKey: real -> string, workloadRate: real, replicas: seq<int>)
    : (r: Result<real>)
    ensures r.Ok? <==>
              JoinReplicas(replicas) in metrics && workloadKey(workloadRate) in metrics[JoinReplicas(replicas)]
    ensures r.Ok? ==> r.value == metrics[JoinReplicas(replicas)][workloadKey(workloadRate)]
    ensures JoinReplicas(replicas) !in metrics ==> r == Fail(KeyError(JoinReplicas(replicas)))
    ensures (JoinReplicas(replicas) in metrics && workloadKey(workloadRate) !in metrics[JoinReplicas(replicas)])
              ==> r == Fail(KeyError(workloadKey(workloadRate)))
  {
    var jointReplicasString := JoinReplicas(replicas);
    var workloadRateString := workloadKey(workloadRate);
    if jointReplicasString !in metrics then Fail(KeyError(jointReplicasString))
    else if workloadRateString !in metrics[jointReplicasString] then Fail(KeyError(workloadRateString))
    else Ok(metrics[jointReplicasString][workloadRateString])
  }

  lemma {:induction false} ParseAllReplicaStrings(replicas: seq<int>)
    requires forall i :: 0 <= i < |replicas| ==> replicas[i] >= 0
    ensures ParseAll(ReplicaStrings(replicas)) == Ok(replicas)
  {
    if replicas != [] {
      IntToStringRoundTrip(replicas[0]);
      ParseAllReplicaStrings(replicas[1..]);
      assert ReplicaStrings(replicas)[1..] == ReplicaStrings(replicas[1..]);
      assert [replicas[0]] + replicas[1..] == replicas;
    }
  }

  lemma {:induction false} ReplicaStringsHaveNoHyphen(replicas: seq<int>)
    requires forall i :: 0 <= i < |replicas| ==> replicas[i] >= 0
    ensures forall i :: 0 <= i < |replicas| ==> '-' !in ReplicaStrings(replicas)[i]
  {
    if replicas != [] {
      ReplicaStringsHaveNoHyphen(replicas[1..]);
      var s := NatToString(replicas[0]);
      assert forall j :: 0 <= j < |s| ==> s[j] != '-';
      forall i | 1 <= i < |replicas| ensures '-' !in ReplicaStrings(replicas)[i] {
        assert ReplicaStrings(replicas)[i] == ReplicaStrings(replicas[1..])[i - 1];
      }
    }
  }

  /** Parsing a schedule permutation inverts building a latency-table key: splitting
      the hyphen-joined label of any non-empty vector of non-negative replica
      counts and parsing each piece gives back the vector. */
  lemma ReplicaLabelRoundTrip(replicas: seq<int>)
    requires |replicas| >= 1
    requires forall i :: 0 <= i < |replicas| ==> replicas[i] >= 0
    ensures ParseReplicas(JoinReplicas(replicas)) == Ok(replicas)
  {
    ReplicaStringsHaveNoHyphen(replicas);
    SplitJoin(ReplicaStrings(replicas), '-');
    ParseAllReplicaStrings(replicas);
  }

  /** Distinct replica configurations get distinct latency-table labels. */
  lemma ReplicaLabelInjective(a: seq<int>, b: seq<int>)
    requires |a| >= 1 && |b| >= 1
    requires forall i :: 0 <= i < |a| ==> a[i] >= 0
    requires forall i :: 0 <= i < |b| ==> b[i] >= 0
    requires JoinReplicas(a) == JoinReplicas(b)
    ensures a == b
  {
    ReplicaLabelRoundTrip(a);
    ReplicaLabelRoundTrip(b);
  }
}
