/** `EC2InstanceManager`: launch one instance per configuration, then wait
    until every instance runs.

    The EC2 resource, `time.time()` and the waiters are inputs: `launches(k)`
    is what the `k`-th `create_instances` call answers, `clock(k)` is the
    `k`-th reading of the clock, and `waits(k)` is how waiting on the `k`-th
    instance ends. The timestamp fixed when the manager is built is a
    parameter. */
module InstanceManager {
  import opened Common

  /** An entry of `instance_configs`, as the orchestrator builds it. */
  datatype InstanceConfig = InstanceConfig(userData: string, users: seq<UserRecord>, admin: AdminCredentials)

  /** One `ec2.create_instances(...)` request. */
  datatype LaunchRequest = LaunchRequest(
    imageId: string,
    minCount: int,
    maxCount: int,
    instanceType: string,
    keyName: string,
    userData: string,
    securityGroupIds: seq<string>,
    nameTag: string)

  /** The requests issued, and what `create_instances` returned or raised. */
  datatype CreateRun = CreateRun(requests: seq<LaunchRequest>, outcome: Outcome<seq<Provisioned>>)

  /** The `Name` tag of the `i`-th instance, counting from 1. */
  function NameTag(i: nat, timestamp: string): string
  {
    "TLJH-Instance-" + NatToString(i) + "-" + timestamp
  }

  /** The request for the `i`-th instance (1-based). */
  function Request(config: InstanceConfig, i: nat, amiId: string, instanceType: string, keyName: string,
                   securityGroupId: string, timestamp: string): LaunchRequest
  {
    LaunchRequest(amiId, 1, 1, instanceType, keyName, config.userData, [securityGroupId], NameTag(i, timestamp))
  }

  /** The requests for a run of configurations starting at 1-based position `first`. */
  predicate RequestsFor(requests: seq<LaunchRequest>, configs: seq<InstanceConfig>, first: nat, amiId: string,
                        instanceType: string, keyName: string, securityGroupId: string, timestamp: string)
  {
    |requests| <= |configs|
    && forall k :: 0 <= k < |requests| ==>
         requests[k] == Request(configs[k], first + k, amiId, instanceType, keyName, securityGroupId, timestamp)
  }

  /** The request for the first configuration followed by requests for the
      rest, numbered on from `first + 1`. */
  lemma RequestsForCons(request: LaunchRequest, rest: seq<LaunchRequest>, configs: seq<InstanceConfig>, first: nat,
                        amiId: string, instanceType: string, keyName: string, securityGroupId: string, timestamp: string)
    requires |configs| > 0
    requires request == Request(configs[0], first, amiId, instanceType, keyName, securityGroupId, timestamp)
    requires RequestsFor(rest, configs[1..], first + 1, amiId, instanceType, keyName, securityGroupId, timestamp)
    ensures RequestsFor([request] + rest, configs, first, amiId, instanceType, keyName, securityGroupId, timestamp)
  {
    forall k | 0 <= k < |rest| + 1
      ensures ([request] + rest)[k] == Request(configs[k], first + k, amiId, instanceType, keyName, securityGroupId, timestamp)
    {
      if k > 0 {
        assert ([request] + rest)[k] == rest[k - 1] && configs[1..][k - 1] == configs[k];
      }
    }
  }

  /** The loop of `create_instances` from configuration `first` (1-based)
      on; `launches(k)` answers the `k`-th request of this stretch. */
  function CreateFrom(configs: seq<InstanceConfig>, first: nat, amiId: string, instanceType: string, keyName: string,
                      securityGroupId: string, timestamp: string, launches: nat -> Outcome<seq<Instance>>): (r: CreateRun)
    ensures RequestsFor(r.requests, configs, first, amiId, instanceType, keyName, securityGroupId, timestamp)
    ensures r.outcome.Returned? ==> |r.requests| == |configs| && |r.outcome.value| == |configs|
    decreases |configs|
  {
    if |configs| == 0 then CreateRun([], Returned([]))
    else
      var request := Request(configs[0], first, amiId, instanceType, keyName, securityGroupId, timestamp);
      match launches(0)
      case Raised(e) => CreateRun([request], Raised(e))
      case Returned(created) =>
        if |created| == 0 then CreateRun([request], Raised(IndexError))
        else
          var next := (k: nat) => launches(k + 1);
          var rest := CreateFrom(configs[1..], first + 1, amiId, instanceType, keyName, securityGroupId, timestamp, next);
          var head := Provisioned(created[0], configs[0].users, configs[0].admin);
          RequestsForCons(request, rest.requests, configs, first, amiId, instanceType, keyName, securityGroupId, timestamp);
          CreateRun([request] + rest.requests,
                    match rest.outcome
                    case Raised(e) => Raised(e)
                    case Returned(tail) => Returned([head] + tail))
  }

  /** `create_instances(instance_configs, ami_id, instance_type, key_name,
      security_group_id)`: one single-instance request per configuration, in
      order and tagged from 1; a triple per configuration on success; the
      first failure re-raised, with no clean-up of earlier instances. */
  function CreateInstances(configs: seq<InstanceConfig>, amiId: string, instanceType: string, keyName: string,
                           securityGroupId: string, timestamp: string, launches: nat -> Outcome<seq<Instance>>): (r: CreateRun)
    ensures RequestsFor(r.requests, configs, 1, amiId, instanceType, keyName, securityGroupId, timestamp)
    ensures r.outcome.Returned? ==> |r.requests| == |configs| && |r.outcome.value| == |configs|
  {
    CreateFrom(configs, 1, amiId, instanceType, keyName, securityGroupId, timestamp, launches)
  }

  /** The `k`-th launch succeeded: it returned at least one instance. */
  predicate Launched(launches: nat -> Outcome<seq<Instance>>, k: nat)
  {
    launches(k).Returned? && |launches(k).value| > 0
  }

  /** The run returns exactly when every launch succeeds. */
  lemma {:induction false} CreateFromSucceeds(configs: seq<InstanceConfig>, first: nat, amiId: string, instanceType: string,
                                              keyName: string, securityGroupId: string, timestamp: string,
                                              launches: nat -> Outcome<seq<Instance>>)
    ensures CreateFrom(configs, first, amiId, instanceType, keyName, securityGroupId, timestamp, launches).outcome.Returned?
            <==> forall k :: 0 <= k < |configs| ==> Launched(launches, k)
    decreases |configs|
  {
    if |configs| > 0 && Launched(launches, 0) {
      var next := (k: nat) => launches(k + 1);
      CreateFromSucceeds(configs[1..], first + 1, amiId, instanceType, keyName, securityGroupId, timestamp, next);
      assert forall k :: 0 <= k < |configs| - 1 ==> (Launched(next, k) <==> Launched(launches, k + 1));
      if forall k :: 0 <= k < |configs| - 1 ==> Launched(next, k) {
        forall k | 0 <= k < |configs|
          ensures Launched(launches, k)
        {
          if k > 0 {
            assert Launched(next, k - 1);
          }
        }
      }
    }
  }

  /** A failed run issued at least one request, and every launch before
      the last request succeeded. */
  lemma {:induction false} CreateFromFailsAfterSuccesses(configs: seq<InstanceConfig>, first: nat, amiId: string,
                                                         instanceType: string, keyName: string, securityGroupId: string,
                                                         timestamp: string, launches: nat -> Outcome<seq<Instance>>)
    requires CreateFrom(configs, first, amiId, instanceType, keyName, securityGroupId, timestamp, launches).outcome.Raised?
    ensures var r := CreateFrom(configs, first, amiId, instanceType, keyName, securityGroupId, timestamp, launches);
      && |r.requests| >= 1
      && (forall k :: 0 <= k < |r.requests| - 1 ==> Launched(launches, k))
    decreases |configs|
  {
    if Launched(launches, 0) {
      var next := (k: nat) => launches(k + 1);
      CreateFromFailsAfterSuccesses(configs[1..], first + 1, amiId, instanceType, keyName, securityGroupId, timestamp, next);
      var rest := CreateFrom(configs[1..], first + 1, amiId, instanceType, keyName, securityGroupId, timestamp, next);
      forall k | 0 <= k < |rest.requests|
        ensures Launched(launches, k)
      {
        if k > 0 {
          assert Launched(next, k - 1);
        }
      }
    }
  }

  /** The last request of a failed run is the failing launch, and its
      exception (or IndexError for an empty response) is re-raised. */
  lemma {:induction false} CreateFromFailsAtLast(configs: seq<InstanceConfig>, first: nat, amiId: string,
                                                 instanceType: string, keyName: string, securityGroupId: string,
                                                 timestamp: string, launches: nat -> Outcome<seq<Instance>>)
    requires CreateFrom(configs, first, amiId, instanceType, keyName, securityGroupId, timestamp, launches).outcome.Raised?
    ensures var r := CreateFrom(configs, first, amiId, instanceType, keyName, securityGroupId, timestamp, launches);
      && |r.requests| >= 1
      && !Launched(launches, |r.requests| - 1)
      && r.outcome.error == (if launches(|r.requests| - 1).Raised? then launches(|r.requests| - 1).error else IndexError)
    decreases |configs|
  {
    if Launched(launches, 0) {
      var next := (k: nat) => launches(k + 1);
      CreateFromFailsAtLast(configs[1..], first + 1, amiId, instanceType, keyName, securityGroupId, timestamp, next);
    }
  }

  /** A failed run stops at the first failing launch: every earlier launch
      succeeded, the failing request is the last one issued, and its
      exception (or IndexError for an empty response) is re-raised. */
  lemma CreateFromFails(configs: seq<InstanceConfig>, first: nat, amiId: string, instanceType: string,
                        keyName: string, securityGroupId: string, timestamp: string,
                        launches: nat -> Outcome<seq<Instance>>)
    requires CreateFrom(configs, first, amiId, instanceType, keyName, securityGroupId, timestamp, launches).outcome.Raised?
    ensures var r := CreateFrom(configs, first, amiId, instanceType, keyName, securityGroupId, timestamp, launches);
      && |r.requests| >= 1
      && (forall k :: 0 <= k < |r.requests| - 1 ==> Launched(launches, k))
      && !Launched(launches, |r.requests| - 1)
      && r.outcome.error == (if launches(|r.requests| - 1).Raised? then launches(|r.requests| - 1).error else IndexError)
  {
    CreateFromFailsAfterSuccesses(configs, first, amiId, instanceType, keyName, securityGroupId, timestamp, launches);
    CreateFromFailsAtLast(configs, first, amiId, instanceType, keyName, securityGroupId, timestamp, launches);
  }

  /** On success the `k`-th triple is the first instance of the `k`-th
      launch with the `k`-th configuration's users and admin, unchanged. */
  lemma {:induction false} CreateFromTriples(configs: seq<InstanceConfig>, first: nat, amiId: string, instanceType: string,
                                             keyName: string, securityGroupId: string, timestamp: string,
                                             launches: nat -> Outcome<seq<Instance>>, k: nat)
    requires CreateFrom(configs, first, amiId, instanceType, keyName, securityGroupId, timestamp, launches).outcome.Returned?
    requires k < |configs|
    ensures Launched(launches, k)
    ensures CreateFrom(configs, first, amiId, instanceType, keyName, securityGroupId, timestamp, launches).outcome.value[k]
            == Provisioned(launches(k).value[0], configs[k].users, configs[k].admin)
    decreases |configs|
  {
    if k > 0 {
      var next := (j: nat) => launches(j + 1);
      CreateFromTriples(configs[1..], first + 1, amiId, instanceType, keyName, securityGroupId, timestamp, next, k - 1);
    }
  }

  /** Distinct positions get distinct `Name` tags under one timestamp. */
  lemma NameTagInjective(i: nat, j: nat, timestamp: string)
    requires NameTag(i, timestamp) == NameTag(j, timestamp)
    ensures i == j
  {
    var a, b := NatToString(i), NatToString(j);
    var prefix := "TLJH-Instance-";
    assert NameTag(i, timestamp) == prefix + (a + "-" + timestamp);
    assert NameTag(j, timestamp) == prefix + (b + "-" + timestamp);
    var ta, tb := a + "-" + timestamp, b + "-" + timestamp;
    assert ta == NameTag(i, timestamp)[|prefix|..] == tb;
    if |a| == |b| {
      assert a == ta[..|a|] == tb[..|b|] == b;
      NatToStringInjective(i, j);
    }
  }

  /** The instances of one `create_instances` call carry pairwise distinct tags. */
  lemma CreateInstancesDistinctTags(configs: seq<InstanceConfig>, amiId: string, instanceType: string, keyName: string,
                                    securityGroupId: string, timestamp: string, launches: nat -> Outcome<seq<Instance>>,
                                    p: nat, q: nat)
    requires var r := CreateInstances(configs, amiId, instanceType, keyName, securityGroupId, timestamp, launches);
      p < q < |r.requests|
    ensures var r := CreateInstances(configs, amiId, instanceType, keyName, securityGroupId, timestamp, launches);
      r.requests[p].nameTag != r.requests[q].nameTag
  {
    var r := CreateInstances(configs, amiId, instanceType, keyName, securityGroupId, timestamp, launches);
    if r.requests[p].nameTag == r.requests[q].nameTag {
      NameTagInjective(1 + p, 1 + q, timestamp);
    }
  }

  // ---------------------------------------------------------------------
  // Waiting for the instances

  /** `wait_for_instances`' default timeout, in seconds. */
  const DefaultTimeout := 300
  /** The waiter's polling delay, in seconds. */
  const WaiterDelay := 5
  /** The fixed sleep for the TLJH installation, in seconds. */
  const SettleSeconds := 180

  /** The `WaiterConfig` passed to `wait_until_running`. */
  datatype WaiterConfig = WaiterConfig(delay: int, maxAttempts: int)

  /** The waiter configurations used, whether the settle sleep ran, and the
      boolean `wait_for_instances` returned. */
  datatype WaitRun = WaitRun(waits: seq<WaiterConfig>, sleptSeconds: int, ready: bool)

  /** Python's `int(x)`: truncation toward zero. */
  function Trunc(x: real): (r: int)
    ensures x >= 0.0 ==> r as real <= x < r as real + 1.0
    ensures x < 0.0 ==> r as real - 1.0 < x <= r as real
  {
    if x >= 0.0 then x.Floor else -((-x).Floor)
  }

  /** `timeout - (time.time() - start_time)` before the `k`-th instance:
      clock reading 0 is the start, reading `k + 1` is taken before instance `k`. */
  function Remaining(timeout: int, clock: nat -> real, k: nat): real
  {
    timeout as real - (clock(k + 1) - clock(0))
  }

  /** The loop of `wait_for_instances` from instance `k` on. */
  function WaitFrom(k: nat, n: nat, timeout: int, clock: nat -> real, waits: nat -> Outcome<()>): (r: WaitRun)
    requires k <= n
    ensures k + |r.waits| <= n
    ensures forall j :: k <= j < k + |r.waits| ==>
      Remaining(timeout, clock, j) > 0.0
      && r.waits[j - k] == WaiterConfig(WaiterDelay, Trunc(Remaining(timeout, clock, j) / WaiterDelay as real))
    decreases n - k
  {
    if k == n then WaitRun([], SettleSeconds, true)
    else if Remaining(timeout, clock, k) <= 0.0 then WaitRun([], 0, false)   // TimeoutError, caught
    else
      var config := WaiterConfig(WaiterDelay, Trunc(Remaining(timeout, clock, k) / WaiterDelay as real));
      if waits(k).Raised? then WaitRun([config], 0, false)                  // waiter error, caught
      else
        var rest := WaitFrom(k + 1, n, timeout, clock, waits);
        assert forall j :: 0 <= j < |rest.waits| ==> ([config] + rest.waits)[j + 1] == rest.waits[j];
        WaitRun([config] + rest.waits, rest.sleptSeconds, rest.ready)
  }

  /** Instance `k` is reached in time and its waiter succeeds. */
  predicate InstanceReady(timeout: int, clock: nat -> real, waits: nat -> Outcome<()>, k: nat)
  {
    Remaining(timeout, clock, k) > 0.0 && waits(k).Returned?
  }

  /** The loop returns `True` iff every instance from `k` on is reached in
      time and runs, and the 180-second sleep happens exactly then. */
  lemma {:induction false} WaitFromVerdict(k: nat, n: nat, timeout: int, clock: nat -> real, waits: nat -> Outcome<()>)
    requires k <= n
    ensures var r := WaitFrom(k, n, timeout, clock, waits);
      && (r.ready <==> forall j :: k <= j < n ==> InstanceReady(timeout, clock, waits, j))
      && (r.sleptSeconds == if r.ready then SettleSeconds else 0)
    decreases n - k
  {
    if k < n && InstanceReady(timeout, clock, waits, k) {
      WaitFromVerdict(k + 1, n, timeout, clock, waits);
    }
  }

  /** A run visits instances only up to the first one that fails. */
  lemma {:induction false} WaitFromStops(k: nat, n: nat, timeout: int, clock: nat -> real, waits: nat -> Outcome<()>)
    requires k <= n
    ensures var r := WaitFrom(k, n, timeout, clock, waits);
      && (forall j :: k <= j < k + |r.waits| - 1 ==> InstanceReady(timeout, clock, waits, j))
      && (!r.ready ==> k + |r.waits| < n || !InstanceReady(timeout, clock, waits, k + |r.waits| - 1))
    decreases n - k
  {
    if k < n && InstanceReady(timeout, clock, waits, k) {
      WaitFromStops(k + 1, n, timeout, clock, waits);
    }
  }

  /** Both facts about the waiting loop. */
  lemma WaitFromReady(k: nat, n: nat, timeout: int, clock: nat -> real, waits: nat -> Outcome<()>)
    requires k <= n
    ensures var r := WaitFrom(k, n, timeout, clock, waits);
      && (r.ready <==> forall j :: k <= j < n ==> InstanceReady(timeout, clock, waits, j))
      && (r.sleptSeconds == if r.ready then SettleSeconds else 0)
      && (forall j :: k <= j < k + |r.waits| - 1 ==> InstanceReady(timeout, clock, waits, j))
      && (!r.ready ==> k + |r.waits| < n || !InstanceReady(timeout, clock, waits, k + |r.waits| - 1))
  {
    WaitFromVerdict(k, n, timeout, clock, waits);
    WaitFromStops(k, n, timeout, clock, waits);
  }

  /** `wait_for_instances(instances, timeout)`: never raises. */
  function WaitForInstances(instances: seq<Provisioned>, timeout: int, clock: nat -> real,
                            waits: nat -> Outcome<()>): (r: WaitRun)
    ensures |r.waits| <= |instances|
    ensures r.ready <==> forall j :: 0 <= j < |instances| ==> InstanceReady(timeout, clock, waits, j)
    ensures r.sleptSeconds == if r.ready then SettleSeconds else 0
    ensures forall j :: 0 <= j < |r.waits| ==>
      Remaining(timeout, clock, j) > 0.0
      && r.waits[j] == WaiterConfig(5, Trunc(Remaining(timeout, clock, j) / 5.0))
  {
    WaitFromReady(0, |instances|, timeout, clock, waits);
    WaitFrom(0, |instances|, timeout, clock, waits)
  }

  /** For a positive remaining time, `int(remaining/5)` attempts of 5 seconds
      fit in the remaining time and one more would not; a remaining time under
      5 seconds gives zero attempts. */
  lemma WaiterAttemptsFit(instances: seq<Provisioned>, timeout: int, clock: nat -> real, waits: nat -> Outcome<()>, j: nat)
    requires j < |WaitForInstances(instances, timeout, clock, waits).waits|
    ensures var m := WaitForInstances(instances, timeout, clock, waits).waits[j].maxAttempts;
      && m >= 0
      && 5.0 * m as real <= Remaining(timeout, clock, j) < 5.0 * (m + 1) as real
      && (Remaining(timeout, clock, j) < 5.0 ==> m == 0)
  {
  }
}
