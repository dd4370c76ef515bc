/** Properties of the complete user-data script: what any rendering of the
    template with complete user records is guaranteed to contain. */
module RenderedScript {
  import opened Common
  import opened UserData
  import opened ScriptText

  /** Every rendered script starts with `#!/bin/bash`. */
  lemma FullScriptShebang(adminPassword: string, users: seq<UserRecord>, requirementsUrl: string)
    requires forall i :: 0 <= i < |users| ==> Complete(users[i])
    ensures GenerateFullScript(adminPassword, users, requirementsUrl).Returned?
    ensures StartsWith(GenerateFullScript(adminPassword, users, requirementsUrl).value, "#!/bin/bash")
  {
    var script := GenerateFullScript(adminPassword, users, requirementsUrl);
    assert script.Returned?;
    assert StartsWith(script.value, "#!/bin/bash") by {
      FullScriptLayout(adminPassword, users, requirementsUrl);
      ScriptStartsWithShebang(GeneratePawseyAdminSetup(adminPassword), requirementsUrl, GenerateUserSetup(users).value,
        Usernames(users).value, GenerateVerificationCommands(users).value);
    }
  }

  /** The escaped `$$username` of the template renders as the shell variable
      `$username` in the body of the sudo-removal loop. */
  lemma FullScriptEscape(adminPassword: string, users: seq<UserRecord>, requirementsUrl: string)
    requires forall i :: 0 <= i < |users| ==> Complete(users[i])
    ensures GenerateFullScript(adminPassword, users, requirementsUrl).Returned?
    ensures Contains(GenerateFullScript(adminPassword, users, requirementsUrl).value, Deluser + "$" + LoopVariable)
  {
    var script := GenerateFullScript(adminPassword, users, requirementsUrl);
    assert script.Returned?;
    assert Contains(script.value, Deluser + "$" + LoopVariable) by {
      FullScriptLayout(adminPassword, users, requirementsUrl);
      ScriptContainsEscape(GeneratePawseyAdminSetup(adminPassword), requirementsUrl, GenerateUserSetup(users).value,
        Usernames(users).value, GenerateVerificationCommands(users).value);
    }
  }

  /** The script contains the sudo-removal loop's header,
      `for username in <usernames>; do`, with the batch's usernames joined
      by single spaces. */
  lemma FullScriptRemovalLoop(adminPassword: string, users: seq<UserRecord>, requirementsUrl: string)
    requires forall i :: 0 <= i < |users| ==> Complete(users[i])
    ensures GenerateFullScript(adminPassword, users, requirementsUrl).Returned? && Usernames(users).Returned?
    ensures Contains(GenerateFullScript(adminPassword, users, requirementsUrl).value,
                     LoopHeader + Usernames(users).value + LoopDo)
  {
    var script := GenerateFullScript(adminPassword, users, requirementsUrl);
    assert script.Returned?;
    assert Contains(script.value, LoopHeader + Usernames(users).value + LoopDo) by {
      FullScriptLayout(adminPassword, users, requirementsUrl);
      ScriptContainsLoop(GeneratePawseyAdminSetup(adminPassword), requirementsUrl, GenerateUserSetup(users).value,
        Usernames(users).value, GenerateVerificationCommands(users).value);
    }
  }

  /** The rendered script sets the admin password. */
  lemma FullScriptAdminPassword(adminPassword: string, users: seq<UserRecord>, requirementsUrl: string)
    requires forall i :: 0 <= i < |users| ==> Complete(users[i])
    ensures GenerateFullScript(adminPassword, users, requirementsUrl).Returned?
    ensures Contains(GenerateFullScript(adminPassword, users, requirementsUrl).value, "pawsey:" + adminPassword)
  {
    var script := GenerateFullScript(adminPassword, users, requirementsUrl);
    assert script.Returned?;
    assert Contains(script.value, "pawsey:" + adminPassword) by {
      FullScriptLayout(adminPassword, users, requirementsUrl);
      ScriptSetsAdminPassword(adminPassword, requirementsUrl, GenerateUserSetup(users).value,
        Usernames(users).value, GenerateVerificationCommands(users).value);
    }
  }

  /** The rendered script passes the requirements URL to the TLJH installer. */
  lemma FullScriptRequirementsUrl(adminPassword: string, users: seq<UserRecord>, requirementsUrl: string)
    requires forall i :: 0 <= i < |users| ==> Complete(users[i])
    ensures GenerateFullScript(adminPassword, users, requirementsUrl).Returned?
    ensures Contains(GenerateFullScript(adminPassword, users, requirementsUrl).value, requirementsUrl)
  {
    var script := GenerateFullScript(adminPassword, users, requirementsUrl);
    assert script.Returned?;
    assert Contains(script.value, requirementsUrl) by {
      FullScriptLayout(adminPassword, users, requirementsUrl);
      ScriptContainsUrl(GeneratePawseyAdminSetup(adminPassword), requirementsUrl, GenerateUserSetup(users).value,
        Usernames(users).value, GenerateVerificationCommands(users).value);
    }
  }

  /** The user block sets every user's password with `chpasswd`. */
  lemma UserSetupSetsPassword(users: seq<UserRecord>, i: nat)
    requires forall j :: 0 <= j < |users| ==> Complete(users[j])
    requires i < |users|
    ensures GenerateUserSetup(users).Returned?
    ensures Contains(GenerateUserSetup(users).value,
                     EchoQuote + users[i].username.value + ":" + users[i].password.value + Chpasswd)
  {
    var cmds := UserSetupCommands(users).value;
    assert cmds[4 * i..4 * i + 4][1] == cmds[4 * i + 1];
    JoinContainsPart(cmds, "\n", 4 * i + 1);
  }

  /** The verification block checks that every user exists. */
  lemma VerificationChecksUser(users: seq<UserRecord>, i: nat)
    requires forall j :: 0 <= j < |users| ==> users[j].username.Some?
    requires i < |users|
    ensures GenerateVerificationCommands(users).Returned?
    ensures Contains(GenerateVerificationCommands(users).value, UserCheck(users[i].username.value)[0])
  {
    var checks := VerificationCommands(users).value;
    assert checks[8 + 6 * i..8 + 6 * i + 6][0] == checks[8 + 6 * i];
    JoinContainsPart(checks, "\n", 8 + 6 * i);
  }

  /** The rendered script sets every user's password. */
  lemma FullScriptUserPassword(adminPassword: string, users: seq<UserRecord>, requirementsUrl: string, i: nat)
    requires forall j :: 0 <= j < |users| ==> Complete(users[j])
    requires i < |users|
    ensures GenerateFullScript(adminPassword, users, requirementsUrl).Returned?
    ensures Contains(GenerateFullScript(adminPassword, users, requirementsUrl).value,
                     EchoQuote + users[i].username.value + ":" + users[i].password.value + Chpasswd)
  {
    var script := GenerateFullScript(adminPassword, users, requirementsUrl);
    var block := GenerateUserSetup(users).value;
    assert script.Returned?;
    assert Contains(script.value, block) by {
      FullScriptLayout(adminPassword, users, requirementsUrl);
      ScriptContainsUserSetup(GeneratePawseyAdminSetup(adminPassword), requirementsUrl, GenerateUserSetup(users).value,
        Usernames(users).value, GenerateVerificationCommands(users).value);
    }
    UserSetupSetsPassword(users, i);
    ContainsTransitive(script.value, block, EchoQuote + users[i].username.value + ":" + users[i].password.value + Chpasswd);
  }

  /** The rendered script checks that every user exists. */
  lemma FullScriptUserCheck(adminPassword: string, users: seq<UserRecord>, requirementsUrl: string, i: nat)
    requires forall j :: 0 <= j < |users| ==> Complete(users[j])
    requires i < |users|
    ensures GenerateFullScript(adminPassword, users, requirementsUrl).Returned?
    ensures Contains(GenerateFullScript(adminPassword, users, requirementsUrl).value, UserCheck(users[i].username.value)[0])
  {
    var script := GenerateFullScript(adminPassword, users, requirementsUrl);
    var block := GenerateVerificationCommands(users).value;
    assert script.Returned?;
    assert Contains(script.value, block) by {
      FullScriptLayout(adminPassword, users, requirementsUrl);
      ScriptContainsVerification(GeneratePawseyAdminSetup(adminPassword), requirementsUrl, GenerateUserSetup(users).value,
        Usernames(users).value, GenerateVerificationCommands(users).value);
    }
    VerificationChecksUser(users, i);
    ContainsTransitive(script.value, block, UserCheck(users[i].username.value)[0]);
  }
}
