/** `EC2ServiceManager.create_ec2_instances`: the provisioning pipeline.

    Stages run in order: security group, ingress rules, per-batch user data,
    instance creation, readiness wait. The first stage that fails ends the
    run with `None` (the method catches every exception), and no later
    stage runs. What AWS answers, the clock, the waiters and the values of
    `secrets.token_hex(16)` are inputs. */
module Orchestrator {
  import opened Common
  import UserData
  import Security
  import InstanceManager
  import Config

  // ---------------------------------------------------------------------
  // Batching

  /** The concatenation of a list of lists. */
  function Flatten<T>(xss: seq<seq<T>>): seq<T>
  {
    if |xss| == 0 then [] else xss[0] + Flatten(xss[1..])
  }

  /** `[credentials[i:i + k] for i in range(0, len(credentials), k)]` for `k > 0`. */
  function Batches<T>(xs: seq<T>, k: nat): (r: seq<seq<T>>)
    requires k > 0
    ensures forall i :: 0 <= i < |r| ==> 0 < |r[i]| <= k
    ensures forall i :: 0 <= i < |r| - 1 ==> |r[i]| == k
    decreases |xs|
  {
    if |xs| == 0 then []
    else if |xs| <= k then [xs]
    else [xs[..k]] + Batches(xs[k..], k)
  }

  /** The batches are contiguous: concatenated, they give back the input. */
  lemma {:induction false} BatchesFlatten<T>(xs: seq<T>, k: nat)
    requires k > 0
    ensures Flatten(Batches(xs, k)) == xs
    decreases |xs|
  {
    if |xs| > k {
      BatchesFlatten(xs[k..], k);
      var r := Batches(xs, k);
      assert r[1..] == Batches(xs[k..], k);
      assert xs == xs[..k] + xs[k..];
    } else if |xs| > 0 {
      assert Batches(xs, k)[1..] == [];
    }
  }

  /** There are ceil(n / k) batches: none for no credentials, otherwise
      the least count whose capacity `count * k` holds them all. */
  lemma {:induction false} BatchesCount<T>(xs: seq<T>, k: nat)
    requires k > 0
    ensures |xs| == 0 <==> |Batches(xs, k)| == 0
    ensures |xs| > 0 ==> (|Batches(xs, k)| - 1) * k < |xs| <= |Batches(xs, k)| * k
    decreases |xs|
  {
    if |xs| > k {
      BatchesCount(xs[k..], k);
      var c := |Batches(xs[k..], k)|;
      assert |Batches(xs, k)| == c + 1;
      assert (c + 1) * k == c * k + k;
    }
  }

  lemma MulSucc(i: nat, k: nat)
    ensures (i + 1) * k == i * k + k
  {
  }

  /** The `i`-th batch is the slice starting at `i * k`. */
  lemma {:induction false} BatchesSlice<T>(xs: seq<T>, k: nat, i: nat)
    requires k > 0 && i < |Batches(xs, k)|
    ensures i * k < |xs|
    ensures Batches(xs, k)[i] == xs[i * k..if (i + 1) * k <= |xs| then (i + 1) * k else |xs|]
    decreases |xs|
  {
    if i > 0 {
      assert |xs| > k;
      var tail := xs[k..];
      assert Batches(xs, k)[i] == Batches(tail, k)[i - 1];
      BatchesSlice(tail, k, i - 1);
      MulSucc(i - 1, k);
      MulSucc(i, k);
      var start := (i - 1) * k;
      var end := if i * k <= |tail| then i * k else |tail|;
      assert start + k == i * k;
      assert end + k == (if (i + 1) * k <= |xs| then (i + 1) * k else |xs|);
      assert tail[start..end] == xs[start + k..end + k];
    }
  }

  /** The messages Python raises for a zero step and for a `str` step. */
  const ZeroStep := "range() arg 3 must not be zero"
  const StrStep := "'str' object cannot be interpreted as an integer"

  /** The batching loop for a configured `users_per_instance`: a positive
      step gives the slices; a negative step gives an empty range, so no
      batch; zero raises ValueError; a string (an environment override) raises
      TypeError. */
  function BatchesFor(credentials: seq<UserRecord>, usersPerInstance: Config.Setting): (r: Outcome<seq<seq<UserRecord>>>)
    ensures r.Returned? <==> usersPerInstance.IntSetting? && usersPerInstance.number != 0
    ensures r.Returned? && usersPerInstance.number < 0 ==> r.value == []
    ensures r.Returned? && usersPerInstance.number > 0 ==> Flatten(r.value) == credentials
    ensures r.Returned? && usersPerInstance.number > 0 ==> r.value == Batches(credentials, usersPerInstance.number)
    ensures usersPerInstance.StrSetting? ==> r == Raised(TypeError(StrStep))
    ensures usersPerInstance == Config.IntSetting(0) ==> r == Raised(ValueError(ZeroStep))
  {
    match usersPerInstance
    case StrSetting(_) => Raised(TypeError(StrStep))
    case IntSetting(k) =>
      if k == 0 then Raised(ValueError(ZeroStep))
      else if k < 0 then Returned([])
      else BatchesFlatten(credentials, k); Returned(Batches(credentials, k))
  }

  // ---------------------------------------------------------------------
  // Per-batch configurations

  const AdminName := "pawsey"

  /** The logging loop reads `user['username']` of every user in the batch. */
  function LogUsernames(batch: seq<UserRecord>): (r: Outcome<()>)
    ensures r.Returned? <==> forall j :: 0 <= j < |batch| ==> batch[j].username.Some?
    ensures r.Raised? ==> r.error == KeyError("username")
  {
    if forall j :: 0 <= j < |batch| ==> batch[j].username.Some? then Returned(()) else Raised(KeyError("username"))
  }

  /** Every credential of the batch has both keys. */
  predicate BatchComplete(batch: seq<UserRecord>)
  {
    forall j :: 0 <= j < |batch| ==> UserData.Complete(batch[j])
  }

  /** The user-data generator: an admin password and a batch of users to a
      script, or an exception. */
  type Renderer = (string, seq<UserRecord>) -> Outcome<string>

  /** `generate_full_script(admin_password=..., users=..., requirements_url=url)`. */
  function FullScriptRenderer(requirementsUrl: string): Renderer
  {
    (password: string, users: seq<UserRecord>) => UserData.GenerateFullScript(password, users, requirementsUrl)
  }

  /** The configuration of the batch at position `i`: its user data rendered
      with password `tokens(i)`, its users, and the admin credentials. */
  function BatchConfig(batch: seq<UserRecord>, i: nat, tokens: nat -> string, render: Renderer)
    : (r: Outcome<InstanceManager.InstanceConfig>)
    ensures r.Returned? <==> LogUsernames(batch).Returned? && render(tokens(i), batch).Returned?
    ensures r.Returned? ==>
      r.value == InstanceManager.InstanceConfig(render(tokens(i), batch).value, batch, AdminCredentials(AdminName, tokens(i)))
  {
    var _ :- LogUsernames(batch);
    var userData :- render(tokens(i), batch);
    Returned(InstanceManager.InstanceConfig(userData, batch, AdminCredentials(AdminName, tokens(i))))
  }

  /** With the real generator a batch is configured exactly when all its
      credentials are complete. */
  lemma BatchConfigRendered(batch: seq<UserRecord>, i: nat, tokens: nat -> string, requirementsUrl: string)
    ensures BatchConfig(batch, i, tokens, FullScriptRenderer(requirementsUrl)).Returned? <==> BatchComplete(batch)
  {
    assert FullScriptRenderer(requirementsUrl)(tokens(i), batch) == UserData.GenerateFullScript(tokens(i), batch, requirementsUrl);
  }

  /** The configuration loop from batch `i` on; the first failing batch ends it. */
  function ConfigsFrom(batches: seq<seq<UserRecord>>, i: nat, tokens: nat -> string, render: Renderer)
    : (r: Outcome<seq<InstanceManager.InstanceConfig>>)
    requires i <= |batches|
    ensures r.Returned? ==> |r.value| == |batches| - i
    decreases |batches| - i
  {
    if i == |batches| then Returned([])
    else
      var head :- BatchConfig(batches[i], i, tokens, render);
      var rest :- ConfigsFrom(batches, i + 1, tokens, render);
      Returned([head] + rest)
  }

  /** On success, entry `j - i` is the configuration of batch `j`. */
  lemma {:induction false} ConfigsFromAt(batches: seq<seq<UserRecord>>, i: nat, tokens: nat -> string, render: Renderer, j: nat)
    requires i <= j < |batches|
    requires ConfigsFrom(batches, i, tokens, render).Returned?
    ensures BatchConfig(batches[j], j, tokens, render) == Returned(ConfigsFrom(batches, i, tokens, render).value[j - i])
    decreases |batches| - i
  {
    if j > i {
      ConfigsFromAt(batches, i + 1, tokens, render, j);
    }
  }

  /** The loop succeeds exactly when every batch can be configured. */
  lemma {:induction false} ConfigsFromSucceeds(batches: seq<seq<UserRecord>>, i: nat, tokens: nat -> string, render: Renderer)
    requires i <= |batches|
    ensures ConfigsFrom(batches, i, tokens, render).Returned?
            <==> forall j :: i <= j < |batches| ==> BatchConfig(batches[j], j, tokens, render).Returned?
    decreases |batches| - i
  {
    if i < |batches| {
      ConfigsFromSucceeds(batches, i + 1, tokens, render);
    }
  }

  /** The loop succeeds exactly when every batch meets whatever condition
      decides, batch by batch, whether it can be configured. */
  lemma ConfigsSucceedWhen(batches: seq<seq<UserRecord>>, tokens: nat -> string, render: Renderer,
                           ok: seq<UserRecord> -> bool)
    requires forall j :: 0 <= j < |batches| ==> (BatchConfig(batches[j], j, tokens, render).Returned? <==> ok(batches[j]))
    ensures ConfigsFrom(batches, 0, tokens, render).Returned? <==> forall j :: 0 <= j < |batches| ==> ok(batches[j])
  {
    ConfigsFromSucceeds(batches, 0, tokens, render);
  }

  /** With the real generator a batch can be configured exactly when every
      credential in it is complete. */
  lemma BatchesRendered(batches: seq<seq<UserRecord>>, tokens: nat -> string, requirementsUrl: string)
    ensures forall j :: 0 <= j < |batches| ==>
      (BatchConfig(batches[j], j, tokens, FullScriptRenderer(requirementsUrl)).Returned? <==> BatchComplete(batches[j]))
  {
    forall j | 0 <= j < |batches|
      ensures BatchConfig(batches[j], j, tokens, FullScriptRenderer(requirementsUrl)).Returned? <==> BatchComplete(batches[j])
    {
      BatchConfigRendered(batches[j], j, tokens, requirementsUrl);
    }
  }

  /** Configuration `j` carries the script rendered for batch `j`'s users
      with its own admin password, those users, and that password under
      `pawsey`. */
  lemma BuildConfigsContents(batches: seq<seq<UserRecord>>, tokens: nat -> string, render: Renderer, j: nat)
    requires ConfigsFrom(batches, 0, tokens, render).Returned?
    requires j < |batches|
    ensures var c := ConfigsFrom(batches, 0, tokens, render).value[j];
            && render(tokens(j), batches[j]) == Returned(c.userData)
            && c.users == batches[j]
            && c.admin == AdminCredentials("pawsey", tokens(j))
  {
    ConfigsFromAt(batches, 0, tokens, render, j);
  }

  /** Distinct tokens give every instance its own admin password. */
  lemma AdminPasswordsDistinct(batches: seq<seq<UserRecord>>, tokens: nat -> string, render: Renderer, p: nat, q: nat)
    requires forall a: nat, b: nat :: a != b ==> tokens(a) != tokens(b)
    requires ConfigsFrom(batches, 0, tokens, render).Returned?
    requires p < q < |batches|
    ensures ConfigsFrom(batches, 0, tokens, render).value[p].admin.password
            != ConfigsFrom(batches, 0, tokens, render).value[q].admin.password
  {
    var configs := ConfigsFrom(batches, 0, tokens, render).value;
    assert configs[p].admin.password == tokens(p) by { BuildConfigsContents(batches, tokens, render, p); }
    assert configs[q].admin.password == tokens(q) by { BuildConfigsContents(batches, tokens, render, q); }
  }

  /** The batching loop and the configuration of every batch with the
      real generator: it succeeds exactly when the credentials are usable,
      and then yields one configuration per batch. */
  function InstanceConfigs(credentials: seq<UserRecord>, usersPerInstance: Config.Setting, tokens: nat -> string,
                           requirementsUrl: string): (r: Outcome<seq<InstanceManager.InstanceConfig>>)
    ensures r.Returned? <==> CredentialsUsable(credentials, usersPerInstance)
    ensures r.Returned? ==> |r.value| == InstanceCount(credentials, usersPerInstance)
  {
    var batches :- BatchesFor(credentials, usersPerInstance);
    BatchesRendered(batches, tokens, requirementsUrl);
    ConfigsSucceedWhen(batches, tokens, FullScriptRenderer(requirementsUrl), BatchComplete);
    if usersPerInstance.number > 0 then
      FlattenComplete(batches);
      ConfigsFrom(batches, 0, tokens, FullScriptRenderer(requirementsUrl))
    else
      ConfigsFrom(batches, 0, tokens, FullScriptRenderer(requirementsUrl))
  }

  // ---------------------------------------------------------------------
  // The pipeline

  /** What the cloud and the runtime answer during one run. */
  datatype Cloud = Cloud(
    listing: Outcome<seq<Security.Group>>,   // security_groups.all()
    created: Outcome<string>,                // create_security_group(...).id
    ingress: nat -> Outcome<()>,             // authorize_ingress, per call
    tokens: nat -> string,                   // secrets.token_hex(16), per batch
    timestamp: string,                       // the instance manager's timestamp
    launches: nat -> Outcome<seq<Instance>>, // ec2.create_instances, per call
    clock: nat -> real,                      // time.time(), per call
    waits: nat -> Outcome<()>)               // wait_until_running + reload, per instance

  datatype Stage = SecurityGroupStage | RulesStage | UserDataStage | CreateStage | WaitStage

  /** The stages entered, the instance configurations built, and the value
      returned (`None` for the caught exception). */
  datatype Run = Run(stages: seq<Stage>, configs: seq<InstanceManager.InstanceConfig>, result: Option<seq<Provisioned>>)

  /** Python truthiness of the security-group id. */
  predicate TruthyId(id: Option<string>)
  {
    id.Some? && id.value != ""
  }

  /** `create_ec2_instances(credentials, users_per_instance)`. */
  function CreateEc2Instances(credentials: seq<UserRecord>, usersPerInstance: Config.Setting, config: Config.Config, cloud: Cloud): (r: Run)
    ensures 1 <= |r.stages| <= 5
    ensures r.stages == [SecurityGroupStage, RulesStage, UserDataStage, CreateStage, WaitStage][..|r.stages|]
    ensures r.result.Some? ==> |r.stages| == 5
  {
    var upsert := Security.CreateOrGetSecurityGroup(cloud.listing, cloud.created, config.securityGroupName,
                                                    config.securityGroupDescription);
    if upsert.Raised? || !TruthyId(upsert.value.id) then Run([SecurityGroupStage], [], None)
    else
      var groupId := upsert.value.id.value;
      var rules := Security.SetupJupyterSecurityRules(cloud.ingress);
      if rules.outcome != Returned(true) then Run([SecurityGroupStage, RulesStage], [], None)
      else
        var configs := InstanceConfigs(credentials, usersPerInstance, cloud.tokens, config.requirementsUrl);
        if configs.Raised? then Run([SecurityGroupStage, RulesStage, UserDataStage], [], None)
        else
          var created := InstanceManager.CreateInstances(configs.value, config.amiId, config.instanceType,
                                                         config.keyName, groupId, cloud.timestamp, cloud.launches);
          if created.outcome.Raised? then Run([SecurityGroupStage, RulesStage, UserDataStage, CreateStage], configs.value, None)
          else
            var waited := InstanceManager.WaitForInstances(created.outcome.value, InstanceManager.DefaultTimeout,
                                                           cloud.clock, cloud.waits);
            var all := [SecurityGroupStage, RulesStage, UserDataStage, CreateStage, WaitStage];
            if !waited.ready then Run(all, configs.value, None)
            else Run(all, configs.value, Some(created.outcome.value))
  }

  // ---------------------------------------------------------------------
  // What each stage needs, stated on the inputs

  /** The security group was found or created and its id is truthy. */
  predicate GroupReady(config: Config.Config, cloud: Cloud)
  {
    var upsert := Security.CreateOrGetSecurityGroup(cloud.listing, cloud.created, config.securityGroupName,
                                                    config.securityGroupDescription);
    upsert.Returned? && TruthyId(upsert.value.id)
  }

  /** The SSH, HTTP and HTTPS rules were each accepted. */
  predicate RulesOpen(cloud: Cloud)
  {
    Security.Accepted(cloud.ingress, 0) && Security.Accepted(cloud.ingress, 1) && Security.Accepted(cloud.ingress, 2)
  }

  /** The step is a non-zero integer and, when it is positive, every
      credential has both keys. */
  predicate CredentialsUsable(credentials: seq<UserRecord>, usersPerInstance: Config.Setting)
  {
    && usersPerInstance.IntSetting?
    && usersPerInstance.number != 0
    && (usersPerInstance.number > 0 ==> forall i :: 0 <= i < |credentials| ==> UserData.Complete(credentials[i]))
  }

  /** How many instances the run asks for. */
  function InstanceCount(credentials: seq<UserRecord>, usersPerInstance: Config.Setting): nat
  {
    if usersPerInstance.IntSetting? && usersPerInstance.number > 0 then |Batches(credentials, usersPerInstance.number)| else 0
  }

  /** The first `n` launches each returned an instance. */
  predicate AllLaunched(cloud: Cloud, n: nat)
  {
    forall k :: 0 <= k < n ==> InstanceManager.Launched(cloud.launches, k)
  }

  /** The first `n` instances each became ready within the default timeout. */
  predicate AllReady(cloud: Cloud, n: nat)
  {
    forall k :: 0 <= k < n ==> InstanceManager.InstanceReady(InstanceManager.DefaultTimeout, cloud.clock, cloud.waits, k)
  }

  /** The batches are complete exactly when every credential is. */
  lemma {:induction false} FlattenComplete(xss: seq<seq<UserRecord>>)
    ensures (forall j :: 0 <= j < |xss| ==> BatchComplete(xss[j]))
            <==> forall i :: 0 <= i < |Flatten(xss)| ==> UserData.Complete(Flatten(xss)[i])
  {
    if |xss| > 0 {
      var head, rest, all := xss[0], Flatten(xss[1..]), Flatten(xss);
      FlattenComplete(xss[1..]);
      assert all == head + rest;
      if forall j :: 0 <= j < |xss| ==> BatchComplete(xss[j]) {
        assert BatchComplete(head);
        forall j | 0 <= j < |xss[1..]|
          ensures BatchComplete(xss[1..][j])
        {
          assert xss[1..][j] == xss[j + 1];
        }
        forall i | 0 <= i < |all|
          ensures UserData.Complete(all[i])
        {
          if i < |head| {
            assert all[i] == head[i];
          } else {
            assert all[i] == rest[i - |head|];
          }
        }
      }
      if forall i :: 0 <= i < |all| ==> UserData.Complete(all[i]) {
        forall i | 0 <= i < |head|
          ensures UserData.Complete(head[i])
        {
          assert all[i] == head[i];
        }
        forall i | 0 <= i < |rest|
          ensures UserData.Complete(rest[i])
        {
          assert all[|head| + i] == rest[i];
        }
        forall j | 0 <= j < |xss|
          ensures BatchComplete(xss[j])
        {
          if j > 0 {
            assert xss[j] == xss[1..][j - 1];
          }
        }
      }
    }
  }

  /** A stage runs only when every earlier stage succeeded: the run gets
      past the security group exactly when the group is ready, past the
      rules exactly when all three were accepted, and past the user data
      exactly when the credentials are usable. */
  lemma PipelineStages(credentials: seq<UserRecord>, usersPerInstance: Config.Setting, config: Config.Config, cloud: Cloud)
    ensures var r := CreateEc2Instances(credentials, usersPerInstance, config, cloud);
            && (|r.stages| >= 2 <==> GroupReady(config, cloud))
            && (|r.stages| >= 3 <==> GroupReady(config, cloud) && RulesOpen(cloud))
            && (|r.stages| >= 4 <==> GroupReady(config, cloud) && RulesOpen(cloud)
                                     && CredentialsUsable(credentials, usersPerInstance))
  {
    Security.SetupJupyterSecurityRulesVerdict(cloud.ingress);
  }

  /** Provisioning returns instances exactly when every stage succeeds:
      the group is ready, the rules are open, the credentials are usable,
      every launch returned an instance and every instance became ready. */
  lemma PipelineSucceeds(credentials: seq<UserRecord>, usersPerInstance: Config.Setting, config: Config.Config, cloud: Cloud)
    ensures var r := CreateEc2Instances(credentials, usersPerInstance, config, cloud);
            var n := InstanceCount(credentials, usersPerInstance);
            r.result.Some? <==> && GroupReady(config, cloud) && RulesOpen(cloud)
                                && CredentialsUsable(credentials, usersPerInstance)
                                && AllLaunched(cloud, n) && AllReady(cloud, n)
  {
    PipelineStages(credentials, usersPerInstance, config, cloud);
    var r := CreateEc2Instances(credentials, usersPerInstance, config, cloud);
    if |r.stages| >= 4 {
      var upsert := Security.CreateOrGetSecurityGroup(cloud.listing, cloud.created, config.securityGroupName,
                                                      config.securityGroupDescription);
      var configs := InstanceConfigs(credentials, usersPerInstance, cloud.tokens, config.requirementsUrl);
      InstanceManager.CreateFromSucceeds(configs.value, 1, config.amiId, config.instanceType, config.keyName,
                                         upsert.value.id.value, cloud.timestamp, cloud.launches);
    }
  }

  /** On success there is one instance and one configuration per batch. */
  lemma PipelineCount(credentials: seq<UserRecord>, usersPerInstance: Config.Setting, config: Config.Config, cloud: Cloud)
    requires CreateEc2Instances(credentials, usersPerInstance, config, cloud).result.Some?
    ensures var r := CreateEc2Instances(credentials, usersPerInstance, config, cloud);
            |r.result.value| == |r.configs| == InstanceCount(credentials, usersPerInstance)
  {
    PipelineStages(credentials, usersPerInstance, config, cloud);
  }

  /** Configuration `k` holds the script rendered for the `k`-th slice of
      the credentials with the `k`-th token, that slice, and the token as
      the `pawsey` password. */
  lemma InstanceConfigsAt(credentials: seq<UserRecord>, usersPerInstance: Config.Setting, tokens: nat -> string,
                          requirementsUrl: string, k: nat)
    requires InstanceConfigs(credentials, usersPerInstance, tokens, requirementsUrl).Returned?
    requires k < InstanceCount(credentials, usersPerInstance)
    ensures usersPerInstance.IntSetting? && usersPerInstance.number > 0
    ensures var c := InstanceConfigs(credentials, usersPerInstance, tokens, requirementsUrl).value[k];
            && FullScriptRenderer(requirementsUrl)(tokens(k), c.users) == Returned(c.userData)
            && c.users == Batches(credentials, usersPerInstance.number)[k]
            && c.admin == AdminCredentials("pawsey", tokens(k))
  {
    var batches := Batches(credentials, usersPerInstance.number);
    BuildConfigsContents(batches, tokens, FullScriptRenderer(requirementsUrl), k);
  }

  /** On success the configurations are those of the user-data stage and
      the instances are what the creation stage returned for them under the
      security group's id. */
  lemma PipelineShape(credentials: seq<UserRecord>, usersPerInstance: Config.Setting, config: Config.Config, cloud: Cloud)
    requires CreateEc2Instances(credentials, usersPerInstance, config, cloud).result.Some?
    ensures GroupReady(config, cloud)
    ensures InstanceConfigs(credentials, usersPerInstance, cloud.tokens, config.requirementsUrl).Returned?
    ensures var r := CreateEc2Instances(credentials, usersPerInstance, config, cloud);
            var upsert := Security.CreateOrGetSecurityGroup(cloud.listing, cloud.created, config.securityGroupName,
                                                            config.securityGroupDescription);
            var created := InstanceManager.CreateInstances(r.configs, config.amiId, config.instanceType, config.keyName,
                                                           upsert.value.id.value, cloud.timestamp, cloud.launches);
            && r.configs == InstanceConfigs(credentials, usersPerInstance, cloud.tokens, config.requirementsUrl).value
            && created.outcome == Returned(r.result.value)
  {
  }

  /** On success the `k`-th triple is the first instance of the `k`-th
      launch, the `k`-th slice of the credentials, and `pawsey` with the
      `k`-th token as password, and the `k`-th configuration was rendered
      from that slice and password. */
  lemma PipelineTriple(credentials: seq<UserRecord>, usersPerInstance: Config.Setting, config: Config.Config,
                       cloud: Cloud, k: nat)
    requires CreateEc2Instances(credentials, usersPerInstance, config, cloud).result.Some?
    requires k < InstanceCount(credentials, usersPerInstance)
    ensures usersPerInstance.IntSetting? && usersPerInstance.number > 0
    ensures InstanceManager.Launched(cloud.launches, k)
    ensures var r := CreateEc2Instances(credentials, usersPerInstance, config, cloud);
            && k < |r.result.value| && k < |r.configs|
            && r.result.value[k].users == Batches(credentials, usersPerInstance.number)[k]
            && r.result.value[k].admin == AdminCredentials("pawsey", cloud.tokens(k))
            && InstanceManager.Launched(cloud.launches, k) && r.result.value[k].instance == cloud.launches(k).value[0]
            && FullScriptRenderer(config.requirementsUrl)(cloud.tokens(k), r.result.value[k].users) == Returned(r.configs[k].userData)
  {
    var r := CreateEc2Instances(credentials, usersPerInstance, config, cloud);
    PipelineCount(credentials, usersPerInstance, config, cloud);
    PipelineShape(credentials, usersPerInstance, config, cloud);
    var upsert := Security.CreateOrGetSecurityGroup(cloud.listing, cloud.created, config.securityGroupName,
                                                    config.securityGroupDescription);
    InstanceConfigsAt(credentials, usersPerInstance, cloud.tokens, config.requirementsUrl, k);
    InstanceManager.CreateFromTriples(r.configs, 1, config.amiId, config.instanceType, config.keyName,
                                      upsert.value.id.value, cloud.timestamp, cloud.launches, k);
  }
}
