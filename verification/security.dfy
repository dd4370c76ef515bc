/** `SecurityGroupManager`: find-or-create a security group by name, open one
    ingress rule, and open the fixed set of JupyterHub rules.

    The EC2 resource is not modelled; what it answers is an input: the
    outcome of listing the existing groups, the outcome of the create call,
    and the outcome of each `authorize_ingress` call in call order. */
module Security {
  import opened Common

  /** A security group as the listing reports it. */
  datatype Group = Group(id: string, name: string)

  /** A `create_security_group(GroupName=..., Description=...)` request. */
  datatype CreateRequest = CreateRequest(name: string, description: string)

  /** What `create_or_get_security_group` returns (`None` on a ClientError)
      together with the create requests it issued. */
  datatype Upsert = Upsert(id: Option<string>, requests: seq<CreateRequest>)

  /** An ingress rule `(ip_protocol, from_port, to_port, cidr_ip)`. */
  datatype IngressRule = IngressRule(protocol: string, fromPort: int, toPort: int, cidr: string)

  /** The index of the first listed group named exactly `name`, if any. */
  function FirstNamed(groups: seq<Group>, name: string): (r: Option<nat>)
    ensures r.Some? ==> r.value < |groups| && groups[r.value].name == name
    ensures r.Some? ==> forall j :: 0 <= j < r.value ==> groups[j].name != name
    ensures r.None? <==> forall j :: 0 <= j < |groups| ==> groups[j].name != name
  {
    if |groups| == 0 then None
    else if groups[0].name == name then Some(0)
    else match FirstNamed(groups[1..], name)
      case None => None
      case Some(k) => Some(k + 1)
  }

  /** A ClientError is turned into `None`; any other exception propagates. */
  function CatchClientError(e: Exception): (r: Outcome<Upsert>)
    ensures e.ClientError? ==> r == Returned(Upsert(None, []))
    ensures !e.ClientError? ==> r == Raised(e)
  {
    if e.ClientError? then Returned(Upsert(None, [])) else Raised(e)
  }

  /** `create_or_get_security_group(group_name, description)`: the id of the
      first listed group with that exact name, without creating anything;
      otherwise one create request and the new group's id; `None` when the
      listing or the creation raises a ClientError. */
  function CreateOrGetSecurityGroup(listing: Outcome<seq<Group>>, created: Outcome<string>,
                                    name: string, description: string): (r: Outcome<Upsert>)
    ensures listing.Returned? && FirstNamed(listing.value, name).Some? ==>
      r == Returned(Upsert(Some(listing.value[FirstNamed(listing.value, name).value].id), []))
    ensures listing.Returned? && FirstNamed(listing.value, name).None? && created.Returned? ==>
      r == Returned(Upsert(Some(created.value), [CreateRequest(name, description)]))
    ensures r.Returned? && |r.value.requests| > 0 ==> r.value.requests == [CreateRequest(name, description)]
    ensures r.Raised? <==>
      || (listing.Raised? && !listing.error.ClientError?)
      || (listing.Returned? && FirstNamed(listing.value, name).None? && created.Raised? && !created.error.ClientError?)
    ensures (r.Returned? && r.value.id.None?) <==>
      || (listing.Raised? && listing.error.ClientError?)
      || (listing.Returned? && FirstNamed(listing.value, name).None? && created.Raised? && created.error.ClientError?)
  {
    match listing
    case Raised(e) => CatchClientError(e)
    case Returned(groups) =>
      match FirstNamed(groups, name)
      case Some(i) => Returned(Upsert(Some(groups[i].id), []))
      case None =>
        match created
        case Raised(e) => CatchClientError(e)
        case Returned(id) => Returned(Upsert(Some(id), [CreateRequest(name, description)]))
  }

  /** The listing after the requests of an upsert took effect: a created
      group is appended under the id the create call returned. */
  function AfterUpsert(groups: seq<Group>, r: Upsert): seq<Group>
  {
    if |r.requests| > 0 && r.id.Some? then groups + [Group(r.id.value, r.requests[0].name)] else groups
  }

  lemma FirstNamedAppend(groups: seq<Group>, g: Group, name: string)
    requires FirstNamed(groups, name).None? && g.name == name
    ensures FirstNamed(groups + [g], name) == Some(|groups|)
  {
    var r := FirstNamed(groups + [g], name);
    assert (groups + [g])[|groups|].name == name;
    assert forall j :: 0 <= j < |groups| ==> (groups + [g])[j] == groups[j];
  }

  /** Idempotence: once the group exists (found, or created by a first call),
      a second call returns the same id and issues no create request,
      whatever the create call would have answered. */
  lemma UpsertIdempotent(groups: seq<Group>, created: Outcome<string>, again: Outcome<string>,
                         name: string, description: string)
    requires CreateOrGetSecurityGroup(Returned(groups), created, name, description).Returned?
    requires CreateOrGetSecurityGroup(Returned(groups), created, name, description).value.id.Some?
    ensures var first := CreateOrGetSecurityGroup(Returned(groups), created, name, description).value;
            CreateOrGetSecurityGroup(Returned(AfterUpsert(groups, first)), again, name, description)
              == Returned(Upsert(first.id, []))
  {
    var first := CreateOrGetSecurityGroup(Returned(groups), created, name, description).value;
    if FirstNamed(groups, name).None? {
      FirstNamedAppend(groups, Group(first.id.value, name), name);
    }
  }

  // ---------------------------------------------------------------------
  // Ingress rules

  /** The error code `authorize_ingress` reports for a rule that exists. */
  const DuplicateCode := "InvalidPermission.Duplicate"

  /** `authorize_ingress_rule`: `True` when the call returns or the group
      already has the rule, `False` on any other ClientError; other
      exceptions propagate. */
  function AuthorizeIngress(answer: Outcome<()>): (r: Outcome<bool>)
    ensures r == Returned(true) <==> answer.Returned? || (answer.error.ClientError? && Contains(answer.error.message, DuplicateCode))
    ensures r == Returned(false) <==> answer.Raised? && answer.error.ClientError? && !Contains(answer.error.message, DuplicateCode)
    ensures r.Raised? <==> answer.Raised? && !answer.error.ClientError?
    ensures r.Raised? ==> r.error == answer.error
  {
    match answer
    case Returned(_) => Returned(true)
    case Raised(e) =>
      if e.ClientError? then Returned(Contains(e.message, DuplicateCode)) else Raised(e)
  }

  /** SSH, HTTP and HTTPS from anywhere, in this order. */
  const JupyterRules := [
    IngressRule("tcp", 22, 22, "0.0.0.0/0"),
    IngressRule("tcp", 80, 80, "0.0.0.0/0"),
    IngressRule("tcp", 443, 443, "0.0.0.0/0")
  ]

  /** The rules that were attempted, and what the `all(...)` over them gave. */
  datatype RulesRun = RulesRun(attempted: seq<IngressRule>, outcome: Outcome<bool>)

  /** Rule `i` was accepted: its answer classifies as `True`. */
  predicate Accepted(answers: nat -> Outcome<()>, i: nat)
  {
    AuthorizeIngress(answers(i)) == Returned(true)
  }

  /** The number of rules `all(...)` attempts: up to and including the first
      one that is not accepted. */
  function Attempts(n: nat, answers: nat -> Outcome<()>): (k: nat)
    ensures k <= n && (n > 0 ==> k >= 1)
  {
    if n == 0 then 0
    else if !Accepted(answers, 0) then 1
    else 1 + Attempts(n - 1, (i: nat) => answers(i + 1))
  }

  /** Every rule before the last attempted one was accepted, and the run
      stops early only at a rule that was not. */
  lemma {:induction false} AttemptsStopAtFirstRefusal(n: nat, answers: nat -> Outcome<()>)
    ensures forall i :: 0 <= i < Attempts(n, answers) - 1 ==> Accepted(answers, i)
    ensures Attempts(n, answers) < n ==> !Accepted(answers, Attempts(n, answers) - 1)
  {
    if n > 0 && Accepted(answers, 0) {
      var next := (i: nat) => answers(i + 1);
      AttemptsStopAtFirstRefusal(n - 1, next);
      forall i | 0 <= i < Attempts(n, answers) - 1
        ensures Accepted(answers, i)
      {
        if i > 0 {
          assert Accepted(next, i - 1);
        }
      }
      if Attempts(n, answers) < n {
        assert !Accepted(next, Attempts(n - 1, next) - 1);
      }
    }
  }

  /** `all(authorize_ingress_rule(sg, *rule) for rule in rules)`, where rule
      `i` is answered by `answers(i)`: rules are tried in order and the first
      rule that is not accepted ends the run. */
  function RunRules(rules: seq<IngressRule>, answers: nat -> Outcome<()>): (r: RulesRun)
    ensures |r.attempted| <= |rules| && r.attempted == rules[..|r.attempted|]
    ensures |rules| > 0 ==> |r.attempted| >= 1
    decreases |rules|
  {
    if |rules| == 0 then RulesRun([], Returned(true))
    else
      match AuthorizeIngress(answers(0))
      case Raised(e) => RulesRun([rules[0]], Raised(e))
      case Returned(ok) =>
        if !ok then RulesRun([rules[0]], Returned(false))
        else
          var rest := RunRules(rules[1..], (i: nat) => answers(i + 1));
          RulesRun([rules[0]] + rest.attempted, rest.outcome)
  }

  /** The run stops exactly where the reference count says. */
  lemma {:induction false} RunRulesLength(rules: seq<IngressRule>, answers: nat -> Outcome<()>)
    ensures |RunRules(rules, answers).attempted| == Attempts(|rules|, answers)
    decreases |rules|
  {
    if |rules| > 0 && Accepted(answers, 0) {
      RunRulesLength(rules[1..], (i: nat) => answers(i + 1));
    }
  }

  /** The verdict is `True` iff every rule was accepted. */
  lemma {:induction false} RunRulesAllAccepted(rules: seq<IngressRule>, answers: nat -> Outcome<()>)
    ensures RunRules(rules, answers).outcome == Returned(true)
            <==> forall i :: 0 <= i < |rules| ==> Accepted(answers, i)
    decreases |rules|
  {
    if |rules| > 0 && Accepted(answers, 0) {
      var next := (i: nat) => answers(i + 1);
      RunRulesAllAccepted(rules[1..], next);
      assert forall i :: 0 <= i < |rules| - 1 ==> (Accepted(next, i) <==> Accepted(answers, i + 1));
      if forall i :: 0 <= i < |rules| - 1 ==> Accepted(next, i) {
        forall i | 0 <= i < |rules|
          ensures Accepted(answers, i)
        {
          if i > 0 {
            assert Accepted(next, i - 1);
          }
        }
      }
    }
  }

  /** The verdict is that of the last attempted rule: `True` when it was
      accepted (so every rule was), otherwise its `False` or exception. */
  lemma {:induction false} RunRulesLastVerdict(rules: seq<IngressRule>, answers: nat -> Outcome<()>)
    requires |rules| > 0
    ensures RunRules(rules, answers).outcome == (if Accepted(answers, Attempts(|rules|, answers) - 1) then Returned(true)
              else AuthorizeIngress(answers(Attempts(|rules|, answers) - 1)))
    decreases |rules|
  {
    if |rules| > 1 && Accepted(answers, 0) {
      var next := (i: nat) => answers(i + 1);
      RunRulesLastVerdict(rules[1..], next);
      assert Attempts(|rules|, answers) - 1 == Attempts(|rules| - 1, next);
      assert answers(Attempts(|rules|, answers) - 1) == next(Attempts(|rules| - 1, next) - 1);
    }
  }

  /** The three facts about a run of rules, together. */
  lemma RunRulesAttempts(rules: seq<IngressRule>, answers: nat -> Outcome<()>)
    ensures |RunRules(rules, answers).attempted| == Attempts(|rules|, answers)
    ensures RunRules(rules, answers).outcome == Returned(true)
            <==> forall i :: 0 <= i < |rules| ==> Accepted(answers, i)
    ensures |rules| > 0 ==>
              RunRules(rules, answers).outcome == (if Accepted(answers, Attempts(|rules|, answers) - 1) then Returned(true)
                else AuthorizeIngress(answers(Attempts(|rules|, answers) - 1)))
  {
    RunRulesLength(rules, answers);
    RunRulesAllAccepted(rules, answers);
    if |rules| > 0 {
      RunRulesLastVerdict(rules, answers);
    }
  }

  /** `setup_jupyter_security_rules`: the JupyterHub rule set under `all(...)`. */
  function SetupJupyterSecurityRules(answers: nat -> Outcome<()>): (r: RulesRun)
    ensures 1 <= |r.attempted| <= 3 && r.attempted == JupyterRules[..|r.attempted|]
  {
    RunRules(JupyterRules, answers)
  }

  /** All three rules are attempted and the result is `True` exactly when
      every answer is accepted; a refused SSH rule stops the run before the
      HTTP and HTTPS rules are tried. */
  lemma SetupJupyterSecurityRulesVerdict(answers: nat -> Outcome<()>)
    ensures SetupJupyterSecurityRules(answers).outcome == Returned(true)
            <==> Accepted(answers, 0) && Accepted(answers, 1) && Accepted(answers, 2)
    ensures SetupJupyterSecurityRules(answers).outcome == Returned(true)
            ==> SetupJupyterSecurityRules(answers).attempted == JupyterRules
    ensures !Accepted(answers, 0) ==> SetupJupyterSecurityRules(answers).attempted == [IngressRule("tcp", 22, 22, "0.0.0.0/0")]
  {
    RunRulesAttempts(JupyterRules, answers);
    var r := SetupJupyterSecurityRules(answers);
    if r.outcome == Returned(true) {
      assert |r.attempted| == 3;
    }
  }
}
