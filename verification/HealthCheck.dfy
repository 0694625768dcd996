/** The probe loop that asks every configured address whether a healthy node lives there. */
module HealthCheck {

  /** What a request to port 9200 of one address comes back with. */
  datatype Answer = NoResponse | Response(status: int)

  predicate Healthy(a: Answer) {
    a.Response? && a.status == 200
  }

  predicate SomeHealthy(answers: seq<Answer>) {
    exists i :: 0 <= i < |answers| && answers[i] == Response(200)
  }

  /** `answers[i]` is the answer the address `clusterIps[i]` gives when it is asked. */
  method HealthyCluster(clusterIps: seq<nat>, answers: seq<Answer>) returns (healthy: bool, asked: nat)
    requires |answers| == |clusterIps|
    ensures healthy <==> exists i :: 0 <= i < |answers| && answers[i] == Response(200)
    ensures asked <= |clusterIps|
    ensures if healthy then asked > 0 && answers[asked - 1] == Response(200) else asked == |clusterIps|
    ensures forall i :: 0 <= i < asked - 1 ==> answers[i] != Response(200)
  {
    asked := 0;
    while asked < |clusterIps|
      invariant 0 <= asked <= |clusterIps|
      invariant forall i :: 0 <= i < asked ==> !Healthy(answers[i])
    {
      asked := asked + 1;
      if Healthy(answers[asked - 1]) {
        return true, asked;
      }
    }
    return false, asked;
  }
}
