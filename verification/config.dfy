/** `ec2_utils.config`: the dataclass defaults, the environment overrides
    applied when the global `Config` is built, and `instance_tags`.

    `os.getenv` is the parameter `env`: `None` for an unset variable,
    `Some(v)` for a set one (possibly empty). */
module Config {
  import opened Common
  import Security

  /** A configuration value. Overrides store the raw environment string,
      so a field whose default is an `int` may end up holding a `str`. */
  datatype Setting = IntSetting(number: int) | StrSetting(text: string)

  /** A rule of `SecurityGroupConfig.INGRESS_RULES`. */
  datatype RuleConfig = RuleConfig(protocol: string, fromPort: int, toPort: int, cidr: string, description: string)

  /** The settings the provisioning code reads. */
  datatype Config = Config(
    region: string,
    amiId: string,
    instanceType: string,
    keyName: string,
    securityGroupName: string,
    securityGroupDescription: string,
    ingressRules: seq<RuleConfig>,
    requirementsUrl: string,
    adminUsername: string,
    usersPerInstance: Setting,
    installationWaitTime: int,
    logLevel: string,
    logDir: string,
    defaultTags: map<string, string>)

  /** The attributes an environment variable can override. */
  datatype Field =
    | Region | AmiId | InstanceType | KeyName | SecurityGroupName
    | RequirementsUrl | AdminUsername | UsersPerInstance | LogLevel | LogDir

  const IngressRules := [
    RuleConfig("tcp", 22, 22, "0.0.0.0/0", "SSH access"),
    RuleConfig("tcp", 80, 80, "0.0.0.0/0", "HTTP access"),
    RuleConfig("tcp", 443, 443, "0.0.0.0/0", "HTTPS access")
  ]

  const DefaultRequirementsUrl :=
    "https://raw.githubusercontent.com/PawseySC/quantum-computing-hackathon/main/python/requirements.txt"

  /** `TaggingConfig.DEFAULT_TAGS`; `ENVIRONMENT` is read with a default,
      so an empty value is kept. */
  function DefaultTags(env: string -> Option<string>): (r: map<string, string>)
    ensures r.Keys == {"Environment", "Project", "ManagedBy"}
    ensures r["Environment"] == (if env("ENVIRONMENT").Some? then env("ENVIRONMENT").value else "development")
  {
    map["Environment" := (match env("ENVIRONMENT") case Some(v) => v case None => "development"),
        "Project" := "quantum-computing-hackathon",
        "ManagedBy" := "ec2-utils"]
  }

  /** The configuration before overrides: every dataclass default. */
  function Defaults(env: string -> Option<string>): Config
  {
    Config(
      region := "ap-southeast-2",
      amiId := "ami-0892a9c01908fafd1",
      instanceType := "t3.micro",
      keyName := "aws_00",
      securityGroupName := "TLJH-SG",
      securityGroupDescription := "Security group for TLJH EC2 instances",
      ingressRules := IngressRules,
      requirementsUrl := DefaultRequirementsUrl,
      adminUsername := "pawsey",
      usersPerInstance := IntSetting(2),
      installationWaitTime := 180,
      logLevel := "DEBUG",
      logDir := "logs",
      defaultTags := DefaultTags(env))
  }

  /** The current value of an overridable attribute. */
  function Get(c: Config, f: Field): Setting
  {
    match f
    case Region => StrSetting(c.region)
    case AmiId => StrSetting(c.amiId)
    case InstanceType => StrSetting(c.instanceType)
    case KeyName => StrSetting(c.keyName)
    case SecurityGroupName => StrSetting(c.securityGroupName)
    case RequirementsUrl => StrSetting(c.requirementsUrl)
    case AdminUsername => StrSetting(c.adminUsername)
    case UsersPerInstance => c.usersPerInstance
    case LogLevel => StrSetting(c.logLevel)
    case LogDir => StrSetting(c.logDir)
  }

  /** `setattr(config_obj, attr_name, value)` with a string value. */
  function Set(c: Config, f: Field, v: string): (r: Config)
    ensures Get(r, f) == StrSetting(v)
    ensures forall g :: g != f ==> Get(r, g) == Get(c, g)
    ensures r.ingressRules == c.ingressRules && r.defaultTags == c.defaultTags
    ensures r.securityGroupDescription == c.securityGroupDescription
    ensures r.installationWaitTime == c.installationWaitTime
  {
    match f
    case Region => c.(region := v)
    case AmiId => c.(amiId := v)
    case InstanceType => c.(instanceType := v)
    case KeyName => c.(keyName := v)
    case SecurityGroupName => c.(securityGroupName := v)
    case RequirementsUrl => c.(requirementsUrl := v)
    case AdminUsername => c.(adminUsername := v)
    case UsersPerInstance => c.(usersPerInstance := StrSetting(v))
    case LogLevel => c.(logLevel := v)
    case LogDir => c.(logDir := v)
  }

  /** The `env_map` of `_load_environment_overrides`: each field under its
      variable, in the source's order. */
  const EnvMap: seq<(string, Field)> := [
    (VarOf(Region), Region),
    (VarOf(AmiId), AmiId),
    (VarOf(InstanceType), InstanceType),
    (VarOf(KeyName), KeyName),
    (VarOf(SecurityGroupName), SecurityGroupName),
    (VarOf(RequirementsUrl), RequirementsUrl),
    (VarOf(AdminUsername), AdminUsername),
    (VarOf(UsersPerInstance), UsersPerInstance),
    (VarOf(LogLevel), LogLevel),
    (VarOf(LogDir), LogDir)
  ]

  /** The variable that overrides a field. */
  function VarOf(f: Field): string
  {
    match f
    case Region => "AWS_REGION"
    case AmiId => "AWS_AMI_ID"
    case InstanceType => "AWS_INSTANCE_TYPE"
    case KeyName => "AWS_KEY_NAME"
    case SecurityGroupName => "SECURITY_GROUP_NAME"
    case RequirementsUrl => "JUPYTER_REQUIREMENTS_URL"
    case AdminUsername => "JUPYTER_ADMIN_USERNAME"
    case UsersPerInstance => "JUPYTER_USERS_PER_INSTANCE"
    case LogLevel => "LOG_LEVEL"
    case LogDir => "LOG_DIR"
  }

  /** Python truthiness of `os.getenv(...)`: set and non-empty. */
  predicate Truthy(v: Option<string>)
  {
    v.Some? && v.value != ""
  }

  /** The value a field ends with, given its variable and its default. */
  function Overridden(v: Option<string>, default: Setting): Setting
  {
    if Truthy(v) then StrSetting(v.value) else default
  }

  /** The loop of `_load_environment_overrides` over `entries`, in order. */
  function ApplyOverrides(c: Config, env: string -> Option<string>, entries: seq<(string, Field)>): (r: Config)
    ensures r.ingressRules == c.ingressRules && r.defaultTags == c.defaultTags
    ensures r.securityGroupDescription == c.securityGroupDescription
    ensures r.installationWaitTime == c.installationWaitTime
    decreases |entries|
  {
    if |entries| == 0 then c
    else
      var name := entries[0].0;
      var next := if Truthy(env(name)) then Set(c, entries[0].1, env(name).value) else c;
      ApplyOverrides(next, env, entries[1..])
  }

  /** The position of a field in a list of entries. */
  function FieldIndex(entries: seq<(string, Field)>, f: Field): (r: Option<nat>)
    ensures r.Some? ==> r.value < |entries| && entries[r.value].1 == f
    ensures r.None? ==> forall i :: 0 <= i < |entries| ==> entries[i].1 != f
  {
    if |entries| == 0 then None
    else if entries[0].1 == f then Some(0)
    else match FieldIndex(entries[1..], f)
      case None => None
      case Some(k) => Some(k + 1)
  }

  /** Each field appears at most once. */
  predicate DistinctFields(entries: seq<(string, Field)>)
  {
    forall i, j :: 0 <= i < j < |entries| ==> entries[i].1 != entries[j].1
  }

  lemma DistinctFieldsTail(entries: seq<(string, Field)>)
    requires |entries| > 0 && DistinctFields(entries)
    ensures DistinctFields(entries[1..])
    ensures FieldIndex(entries[1..], entries[0].1).None?
  {
    forall i, j | 0 <= i < j < |entries| - 1
      ensures entries[1..][i].1 != entries[1..][j].1
    {
      assert entries[1..][i] == entries[i + 1] && entries[1..][j] == entries[j + 1];
    }
    forall i | 0 <= i < |entries| - 1
      ensures entries[1..][i].1 != entries[0].1
    {
      assert entries[1..][i] == entries[i + 1];
    }
  }

  /** The loop changes a field only through its own entry: to the variable's
      value when it is set and non-empty, otherwise not at all. */
  lemma {:induction false} ApplyOverridesField(c: Config, env: string -> Option<string>, entries: seq<(string, Field)>, f: Field)
    requires DistinctFields(entries)
    ensures Get(ApplyOverrides(c, env, entries), f)
            == match FieldIndex(entries, f)
               case None => Get(c, f)
               case Some(i) => Overridden(env(entries[i].0), Get(c, f))
    decreases |entries|
  {
    if |entries| > 0 {
      var name, g := entries[0].0, entries[0].1;
      var next := if Truthy(env(name)) then Set(c, g, env(name).value) else c;
      DistinctFieldsTail(entries);
      ApplyOverridesField(next, env, entries[1..], f);
    }
  }

  /** `Config()`: the defaults, then the environment overrides. */
  function LoadConfig(env: string -> Option<string>): (c: Config)
    ensures c.ingressRules == IngressRules
    ensures c.securityGroupDescription == "Security group for TLJH EC2 instances"
    ensures c.installationWaitTime == 180
    ensures c.defaultTags == DefaultTags(env)
  {
    ApplyOverrides(Defaults(env), env, EnvMap)
  }

  lemma EnvMapDistinct()
    ensures DistinctFields(EnvMap)
  {
  }

  lemma EnvMapVars()
    ensures forall i :: 0 <= i < |EnvMap| ==> EnvMap[i].0 == VarOf(EnvMap[i].1)
  {
  }

  lemma EnvMapCovers(f: Field)
    ensures exists k :: 0 <= k < |EnvMap| && EnvMap[k].1 == f
  {
    match f
    case Region => assert EnvMap[0].1 == f;
    case AmiId => assert EnvMap[1].1 == f;
    case InstanceType => assert EnvMap[2].1 == f;
    case KeyName => assert EnvMap[3].1 == f;
    case SecurityGroupName => assert EnvMap[4].1 == f;
    case RequirementsUrl => assert EnvMap[5].1 == f;
    case AdminUsername => assert EnvMap[6].1 == f;
    case UsersPerInstance => assert EnvMap[7].1 == f;
    case LogLevel => assert EnvMap[8].1 == f;
    case LogDir => assert EnvMap[9].1 == f;
  }

  lemma EnvMapIndex(f: Field)
    ensures FieldIndex(EnvMap, f).Some? && EnvMap[FieldIndex(EnvMap, f).value].0 == VarOf(f)
  {
    EnvMapCovers(f);
    EnvMapVars();
  }

  /** Every overridable field holds its variable's raw value when that is set
      and non-empty, and its default otherwise. */
  lemma LoadConfigField(env: string -> Option<string>, f: Field)
    ensures Get(LoadConfig(env), f) == Overridden(env(VarOf(f)), Get(Defaults(env), f))
  {
    EnvMapDistinct();
    EnvMapIndex(f);
    ApplyOverridesField(Defaults(env), env, EnvMap, f);
  }

  /** With none of the mapped variables set to a non-empty value, the
      configuration is the dataclass defaults. */
  lemma LoadConfigDefaults(env: string -> Option<string>)
    requires forall f: Field :: !Truthy(env(VarOf(f)))
    ensures var c := LoadConfig(env);
      && c.region == "ap-southeast-2" && c.amiId == "ami-0892a9c01908fafd1"
      && c.instanceType == "t3.micro" && c.keyName == "aws_00"
      && c.securityGroupName == "TLJH-SG" && c.requirementsUrl == DefaultRequirementsUrl
      && c.adminUsername == "pawsey" && c.usersPerInstance == IntSetting(2)
      && c.logLevel == "DEBUG" && c.logDir == "logs"
  {
    LoadConfigField(env, Region);
    LoadConfigField(env, AmiId);
    LoadConfigField(env, InstanceType);
    LoadConfigField(env, KeyName);
    LoadConfigField(env, SecurityGroupName);
    LoadConfigField(env, RequirementsUrl);
    LoadConfigField(env, AdminUsername);
    LoadConfigField(env, UsersPerInstance);
    LoadConfigField(env, LogLevel);
    LoadConfigField(env, LogDir);
  }

  lemma GetUsersPerInstance(c: Config)
    ensures Get(c, UsersPerInstance) == c.usersPerInstance
  {
  }

  lemma DefaultUsersPerInstance(env: string -> Option<string>)
    ensures Get(Defaults(env), UsersPerInstance) == IntSetting(2)
    ensures VarOf(UsersPerInstance) == "JUPYTER_USERS_PER_INSTANCE"
  {
  }

  /** An override is stored as the raw string: `JUPYTER_USERS_PER_INSTANCE=3`
      makes users-per-instance the string `"3"`, not the number 3. */
  lemma UsersPerInstanceOverride(env: string -> Option<string>)
    ensures Truthy(env("JUPYTER_USERS_PER_INSTANCE")) ==>
      LoadConfig(env).usersPerInstance == StrSetting(env("JUPYTER_USERS_PER_INSTANCE").value)
    ensures !Truthy(env("JUPYTER_USERS_PER_INSTANCE")) ==> LoadConfig(env).usersPerInstance == IntSetting(2)
  {
    LoadConfigField(env, UsersPerInstance);
    GetUsersPerInstance(LoadConfig(env));
    DefaultUsersPerInstance(env);
  }

  /** `instance_tags`: a copy of the default tags with `Service` and
      `CreatedAt` added or replaced; the default tags are left as they were. */
  function InstanceTags(c: Config): (r: map<string, string>)
    ensures r.Keys == c.defaultTags.Keys + {"Service", "CreatedAt"}
    ensures r["Service"] == "JupyterHub" && r["CreatedAt"] == "${timestamp}"
    ensures forall k :: k in c.defaultTags && k != "Service" && k != "CreatedAt" ==> r[k] == c.defaultTags[k]
  {
    c.defaultTags["Service" := "JupyterHub"]["CreatedAt" := "${timestamp}"]
  }

  /** The ingress rule a configured rule describes, without its description. */
  function AsIngressRule(r: RuleConfig): Security.IngressRule
  {
    Security.IngressRule(r.protocol, r.fromPort, r.toPort, r.cidr)
  }

  /** The configured ingress rules are the rules `setup_jupyter_security_rules`
      opens, in the same order. */
  lemma IngressRulesAgree()
    ensures |IngressRules| == |Security.JupyterRules|
    ensures forall i :: 0 <= i < |IngressRules| ==> AsIngressRule(IngressRules[i]) == Security.JupyterRules[i]
  {
  }
}
