/** The literal text of the bootstrap script template
    (aws_ec2/ec2_utils/user_data.py), section by section, and the facts
    about it that substitution relies on: no section holds a `$`, and each
    section that follows a placeholder starts with a character that cannot
    continue a placeholder name. Literals are kept short so that the
    verifier can inspect their characters. */
module ScriptText {
  const Shebang: string := "#!/bin/bash"
  const Head: string := Shebang + HeadBody
  const HeadBody: string := UpdateSection + GetlessonScript + GetlessonClone + GetlessonChmod
  const AfterAdmin: string := InstallCommand + InstallOptions
  const AfterUrl: string := WaitSection + WaitLoop + WaitSleep + ConfigureSection + GroupSection
  const LoopHeader: string := "for username in "
  const AfterUserSetup: string := RemoveSudoIntro + LoopHeader
  /** The loop body that removes each listed user from the sudo group. */
  const Deluser: string := "sudo deluser "
  const LoopVariable: string := "username"
  const LoopDo: string := "; do\n    "
  const AfterUsernames: string := LoopDo + Deluser
  const AfterEscape: string := LoopVariable + EscapeRest
  const EscapeRest: string := ReloadSection + VerifySection

  /** Strict mode and the system update. */
  const UpdateSection: string :=
    "\nset -e\n\n"
    + "# Update system\n"
    + "sudo apt-get"
    + " update\n"
    + "sudo apt-get"
    + " install -y"
    + " python3-pip\n\n"
  /** The `getlesson` helper script: its first line. */
  const GetlessonScript: string :=
    "# Create and"
    + " configure the"
    + " getlesson"
    + " script\n"
    + "sudo echo \"#!"
    + "/bin/bash\n \n"
  /** The `getlesson` helper script: the clone command. */
  const GetlessonClone: string :=
    "git clone"
    + " https://github"
    + ".com/PawseySC"
    + "/quantum-computi"
    + "ng-hackathon\""
    + " >> /usr/bin"
    + "/getlesson\n"
  /** The helper made executable, then the admin heading. */
  const GetlessonChmod: string :=
    "sudo chmod a+rx"
    + " /usr/bin"
    + "/getlesson\n\n"
    + "# Set up Pawsey"
    + " admin user\n"
  /** The TLJH installer command, up to its options. */
  const InstallCommand: string :=
    "\n\n"
    + "# Install TLJH\n"
    + "curl -L https:/"
    + "/tljh.jupyter"
    + ".org/bootstrap"
    + ".py | sudo"
    + " python3 -"
  /** The installer's options before the requirements URL. */
  const InstallOptions: string :=
    " --admin pawsey"
    + " --user-requirem"
    + "ents-txt-url "
  /** The last installer option, then the wait announcement. */
  const WaitSection: string :=
    " --show-progress"
    + "-page\n\n"
    + "# Wait for TLJH"
    + " installation\n"
    + "echo \"Waiting"
    + " for TLJH"
    + " installation"
    + " to complete.."
    + ".\"\n"
  /** The head of the loop polling the installer log. */
  const WaitLoop: string :=
    "while [ ! -f "
    + "/opt/tljh"
    + "/installer.log"
    + " ] || ! grep -q"
    + " \"Done!\" /opt"
    + "/tljh/installer"
    + ".log; do\n"
  /** The body of the polling loop. */
  const WaitSleep: string :=
    "    sleep 30\n"
    + "    echo \"Still"
    + " waiting for"
    + " TLJH"
    + " installation.."
    + ".\"\ndone\n\n"
  /** PAM authentication for JupyterHub. */
  const ConfigureSection: string :=
    "# Configure"
    + " JupyterHub\nsudo"
    + " tljh-config"
    + " set auth.type"
    + " jupyterhub.auth"
    + ".PAMAuthenticato"
    + "r\nsudo"
    + " tljh-config"
    + " set auth"
    + ".PAMAuthenticato"
    + "r.open_sessions"
    + " False\n\n"
  /** The `jupyter` group, then the users heading. */
  const GroupSection: string :=
    "# Create"
    + " jupyter group\n"
    + "sudo groupadd"
    + " -f jupyter\n\n"
    + "# Create and"
    + " configure"
    + " users\n"
  /** The heading of the sudo-removal loop. */
  const RemoveSudoIntro: string :=
    "\n\n# Remove sudo"
    + " access from"
    + " regular users\n"
  /** The end of the sudo-removal loop and the configuration reload. */
  const ReloadSection: string :=
    " sudo 2>/dev"
    + "/null || true\n"
    + "done\n\n# Reload"
    + " JupyterHub"
    + " configuration\n"
    + "sudo tljh-config"
    + " reload\n\n"
  /** The verification heading. */
  const VerifySection: string :=
    "# Verify"
    + " installation\n"
    + "echo \"Verifying"
    + " installation.."
    + ".\"\n"
  /** The closing message. */
  const Tail: string :=
    "\n\necho"
    + " \"Installation"
    + " completed"
    + " successfully!\"\n"

  // Each section of the template text is free of `$`.
  lemma UpdateSectionFree()
    ensures '$' !in UpdateSection
  {
  }

  lemma GetlessonScriptFree()
    ensures '$' !in GetlessonScript
  {
  }

  lemma GetlessonCloneFree()
    ensures '$' !in GetlessonClone
  {
  }

  lemma GetlessonChmodFree()
    ensures '$' !in GetlessonChmod
  {
  }

  lemma InstallCommandFree()
    ensures '$' !in InstallCommand
  {
  }

  lemma InstallOptionsFree()
    ensures '$' !in InstallOptions
  {
  }

  lemma WaitSectionFree()
    ensures '$' !in WaitSection
  {
    assert '$' !in " --show-progress" + "-page\n\n" + "# Wait for TLJH" + " installation\n";
    assert '$' !in "echo \"Waiting" + " for TLJH" + " installation" + " to complete.." + ".\"\n";
  }

  lemma WaitLoopFree()
    ensures '$' !in WaitLoop
  {
  }

  lemma WaitSleepFree()
    ensures '$' !in WaitSleep
  {
  }

  lemma ConfigureSectionFree()
    ensures '$' !in ConfigureSection
  {
  }

  lemma GroupSectionFree()
    ensures '$' !in GroupSection
  {
  }

  lemma RemoveSudoIntroFree()
    ensures '$' !in RemoveSudoIntro
  {
  }

  lemma ReloadSectionFree()
    ensures '$' !in ReloadSection
  {
  }

  lemma VerifySectionFree()
    ensures '$' !in VerifySection
  {
  }

  lemma HeadFree()
    ensures |Head| > 0 && '$' !in Head
  {
    UpdateSectionFree();
    GetlessonScriptFree();
    GetlessonCloneFree();
    GetlessonChmodFree();
  }

  lemma AfterAdminFree()
    ensures |AfterAdmin| > 0 && '$' !in AfterAdmin && AfterAdmin[0] == '\n'
  {
    InstallCommandFree();
    InstallOptionsFree();
  }

  lemma AfterUrlFree()
    ensures |AfterUrl| > 0 && '$' !in AfterUrl && AfterUrl[0] == ' '
  {
    WaitSectionFree();
    WaitLoopFree();
    WaitSleepFree();
    ConfigureSectionFree();
    GroupSectionFree();
  }

  lemma AfterUserSetupFree()
    ensures |AfterUserSetup| > 0 && '$' !in AfterUserSetup && AfterUserSetup[0] == '\n'
  {
    RemoveSudoIntroFree();
  }

  lemma AfterUsernamesFree()
    ensures |AfterUsernames| > 0 && '$' !in AfterUsernames && AfterUsernames[0] == ';'
  {
  }

  lemma AfterEscapeFree()
    ensures |AfterEscape| > 0 && '$' !in AfterEscape
  {
    ReloadSectionFree();
    VerifySectionFree();
  }

  lemma TailFree()
    ensures |Tail| > 0 && '$' !in Tail && Tail[0] == '\n'
  {
  }
}
