/** The bootstrap script each instance receives as user data
    (aws_ec2/ec2_utils/user_data.py). The script is a PEP 292 template
    (Python's `string.Template`) with five placeholders; the three generators
    produce the admin block, the per-user block and the verification block,
    and `GenerateFullScript` substitutes them. */
module UserData {
  import opened Common
  import opened ScriptText

  // ---------------------------------------------------------------------
  // PEP 292 substitution over raw template text

  /** First character of a placeholder name (`[_a-z]`, case-insensitive). */
  predicate IsIdStart(c: char)
  {
    c == '_' || 'a' <= c <= 'z' || 'A' <= c <= 'Z'
  }

  /** Later characters of a placeholder name (`[_a-z0-9]`, case-insensitive). */
  predicate IsIdChar(c: char)
  {
    IsIdStart(c) || '0' <= c <= '9'
  }

  predicate IsIdentifier(n: string)
  {
    |n| >= 1 && IsIdStart(n[0]) && forall i :: 0 <= i < |n| ==> IsIdChar(n[i])
  }

  /** Length of the longest prefix of `s` made of identifier characters. */
  function IdentSpan(s: string): (k: nat)
    ensures k <= |s|
    ensures forall i :: 0 <= i < k ==> IsIdChar(s[i])
    ensures k < |s| ==> !IsIdChar(s[k])
  {
    if |s| > 0 && IsIdChar(s[0]) then 1 + IdentSpan(s[1..]) else 0
  }

  function Prepend(s: string, o: Outcome<string>): Outcome<string>
  {
    match o
    case Returned(v) => Returned(s + v)
    case Raised(e) => o
  }

  /** `Template(t).substitute(m)`: `$$` is a literal `$`, `$name` and `${name}`
      are replaced by `m[name]` (KeyError when absent), any other `$` is a
      ValueError. Scanning is left to right and substituted values are never
      scanned again. */
  function Substitute(t: string, m: map<string, string>): Outcome<string>
    decreases |t|
  {
    if |t| == 0 then Returned("")
    else if t[0] != '$' then Prepend([t[0]], Substitute(t[1..], m))
    else if |t| >= 2 && t[1] == '$' then Prepend("$", Substitute(t[2..], m))
    else if |t| >= 2 && IsIdStart(t[1]) then
      var k := IdentSpan(t[1..]);
      var name := t[1..1 + k];
      if name in m then Prepend(m[name], Substitute(t[1 + k..], m))
      else Raised(KeyError(name))
    else if |t| >= 3 && t[1] == '{' && IsIdStart(t[2])
            && 2 + IdentSpan(t[2..]) < |t| && t[2 + IdentSpan(t[2..])] == '}' then
      var k := IdentSpan(t[2..]);
      var name := t[2..2 + k];
      if name in m then Prepend(m[name], Substitute(t[3 + k..], m))
      else Raised(KeyError(name))
    else Raised(ValueError("Invalid placeholder in string"))
  }

  /** A template split into its parts: literal text, the `$$` escape, and
      `$name` placeholders. */
  datatype Piece<N> = Text(text: string) | Dollar | Ph(name: N)

  /** The template source text of a piece. */
  function RawPiece(p: Piece<string>): string
  {
    match p
    case Text(s) => s
    case Dollar => "$$"
    case Ph(n) => "$" + n
  }

  function Raw(ps: seq<Piece<string>>): string
  {
    if |ps| == 0 then "" else RawPiece(ps[0]) + Raw(ps[1..])
  }

  predicate Bound<N>(ps: seq<Piece<N>>, m: map<N, string>)
  {
    forall i :: 0 <= i < |ps| ==> ps[i].Ph? ==> ps[i].name in m
  }

  /** The rendering of a piece sequence: literal text as is, `$$` as `$`,
      each placeholder as its value. */
  function Fill<N>(ps: seq<Piece<N>>, m: map<N, string>): string
    requires Bound(ps, m)
  {
    if |ps| == 0 then ""
    else
      var head := match ps[0] case Text(s) => s case Dollar => "$" case Ph(n) => m[n];
      head + Fill(ps[1..], m)
  }

  /** Pieces whose raw text scans back into exactly these pieces: text is
      non-empty and `$`-free, and a placeholder name is an identifier not
      followed by another identifier character. */
  predicate WellFormed(ps: seq<Piece<string>>)
  {
    forall i :: 0 <= i < |ps| ==>
      && (ps[i].Text? ==> |ps[i].text| > 0 && '$' !in ps[i].text)
      && (ps[i].Ph? ==> IsIdentifier(ps[i].name))
      && (ps[i].Ph? && i + 1 < |ps| && ps[i + 1].Text? && |ps[i + 1].text| > 0 ==> !IsIdChar(ps[i + 1].text[0]))
  }

  lemma PrependPrepend(a: string, b: string, o: Outcome<string>)
    ensures Prepend(a, Prepend(b, o)) == Prepend(a + b, o)
  {
    if o.Returned? {
      assert a + (b + o.value) == a + b + o.value;
    }
  }

  /** Text without `$` is copied unchanged. */
  lemma {:induction false} SubstituteText(s: string, rest: string, m: map<string, string>)
    requires '$' !in s
    ensures Substitute(s + rest, m) == Prepend(s, Substitute(rest, m))
    decreases |s|
  {
    if |s| == 0 {
      assert s + rest == rest;
      if Substitute(rest, m).Returned? {
        assert "" + Substitute(rest, m).value == Substitute(rest, m).value;
      }
    } else {
      var t := s + rest;
      assert t[0] == s[0] && t[1..] == s[1..] + rest;
      SubstituteText(s[1..], rest, m);
      PrependPrepend([s[0]], s[1..], Substitute(rest, m));
      assert [s[0]] + s[1..] == s;
    }
  }

  lemma {:induction false} IdentSpanOf(n: string, rest: string)
    requires forall i :: 0 <= i < |n| ==> IsIdChar(n[i])
    requires |rest| == 0 || !IsIdChar(rest[0])
    ensures IdentSpan(n + rest) == |n|
    decreases |n|
  {
    if |n| == 0 {
      assert n + rest == rest;
    } else {
      assert (n + rest)[1..] == n[1..] + rest;
      IdentSpanOf(n[1..], rest);
    }
  }

  lemma WellFormedTail(ps: seq<Piece<string>>)
    requires |ps| >= 1 && WellFormed(ps)
    ensures WellFormed(ps[1..])
  {
    forall i | 0 <= i < |ps| - 1
      ensures ps[1..][i] == ps[i + 1]
    {
    }
  }

  /** The raw text of well-formed pieces starts with the first piece's first character. */
  lemma RawHead(ps: seq<Piece<string>>)
    requires |ps| >= 1 && WellFormed(ps)
    ensures |Raw(ps)| >= 1 && Raw(ps)[0] == RawPiece(ps[0])[0]
  {
    assert |RawPiece(ps[0])| >= 1;
  }

  /** `$$` is replaced by a single `$` and scanning resumes after it. */
  lemma SubstituteDollar(rest: string, m: map<string, string>)
    ensures Substitute("$$" + rest, m) == Prepend("$", Substitute(rest, m))
  {
    var t := "$$" + rest;
    assert t[0] == '$' && t[1] == '$' && t[2..] == rest;
  }

  /** `$name` is replaced by the bound value, which is not scanned again. */
  lemma SubstitutePlaceholder(n: string, rest: string, m: map<string, string>)
    requires IsIdentifier(n) && n in m
    requires |rest| == 0 || !IsIdChar(rest[0])
    ensures Substitute("$" + n + rest, m) == Prepend(m[n], Substitute(rest, m))
  {
    var t := "$" + n + rest;
    assert t[1..] == n + rest;
    IdentSpanOf(n, rest);
    assert t[1] == n[0];
    assert t[1..1 + |n|] == n;
    assert t[1 + |n|..] == rest;
  }

  /** Scanning the raw text of well-formed pieces with every placeholder
      bound yields exactly the piece-wise rendering. */
  lemma {:induction false} SubstitutePieces(ps: seq<Piece<string>>, m: map<string, string>)
    requires WellFormed(ps) && Bound(ps, m)
    ensures Substitute(Raw(ps), m) == Returned(Fill(ps, m))
    decreases |ps|
  {
    if |ps| > 0 {
      WellFormedTail(ps);
      assert Bound(ps[1..], m) by {
        forall i | 0 <= i < |ps| - 1
          ensures ps[1..][i] == ps[i + 1]
        {
        }
      }
      SubstitutePieces(ps[1..], m);
      var rest := Raw(ps[1..]);
      assert Raw(ps) == RawPiece(ps[0]) + rest;
      match ps[0]
      case Text(s) =>
        SubstituteText(s, rest, m);
      case Dollar =>
        SubstituteDollar(rest, m);
      case Ph(n) =>
        if |ps| > 1 {
          RawHead(ps[1..]);
        }
        SubstitutePlaceholder(n, rest, m);
    }
  }

  // ---------------------------------------------------------------------
  // The fixed template

  /** The five placeholders of the template. */
  datatype Slot = PawseySetupSlot | RequirementsUrlSlot | UserSetupSlot | UsernamesSlot | VerificationSlot

  /** The placeholder name the template source uses for a slot. */
  function SlotName(s: Slot): string
  {
    match s
    case PawseySetupSlot => "pawsey_setup"
    case RequirementsUrlSlot => "requirements_url"
    case UserSetupSlot => "user_setup"
    case UsernamesSlot => "usernames"
    case VerificationSlot => "verification_commands"
  }

  function NamePiece(p: Piece<Slot>): Piece<string>
  {
    match p
    case Text(s) => Text(s)
    case Dollar => Dollar
    case Ph(n) => Ph(SlotName(n))
  }

  /** The base script template, part by part, in source order. */
  const TemplatePieces: seq<Piece<Slot>> := [
    Text(Head), Ph(PawseySetupSlot),
    Text(AfterAdmin), Ph(RequirementsUrlSlot),
    Text(AfterUrl), Ph(UserSetupSlot),
    Text(AfterUserSetup), Ph(UsernamesSlot),
    Text(AfterUsernames), Dollar,
    Text(AfterEscape), Ph(VerificationSlot),
    Text(Tail)
  ]


  // ---------------------------------------------------------------------
  // Admin block

  lemma ContainsAlternating(a: string, x: string, b: string, y: string, c: string, z: string, d: string, w: string)
    requires Contains(a, w)
    ensures Contains(a + x + b + y + c + z + d, w)
    ensures Contains(a + x + b + y + c + z + d, x)
    ensures Contains(a + x + b + y + c + z + d, y)
    ensures Contains(a + x + b + y + c + z + d, z)
  {
    var r := a + x + b + y + c + z + d;
    assert OccursAt(r, x, |a|);
    assert OccursAt(r, y, |a + x + b|);
    assert OccursAt(r, z, |a + x + b + y + c|);
    var i :| 0 <= i <= |a| - |w| && OccursAt(a, w, i);
    assert r[i..i + |w|] == a[i..i + |w|];
    assert OccursAt(r, w, i);
  }

  const AdminName := "pawsey"

  /** `generate_pawsey_admin_setup(password)`. */
  function GeneratePawseyAdminSetup(password: string): string
  {
    var u := "useradd -m -s /bin/bash pawsey";
    var a := "\n# Create Pawsey admin user\nsudo " + u + "\necho '";
    var b := "' | sudo chpasswd\nsudo ";
    var c := "\n\n# Create sudoers file for Pawsey user\necho 'pawsey ALL=(ALL) NOPASSWD:ALL' | sudo tee ";
    var d := "\nsudo chmod 0440 /etc/sudoers.d/pawsey\n";
    a + ("pawsey:" + password) + b + "usermod -aG sudo pawsey" + c + "/etc/sudoers.d/pawsey" + d
  }

  /** The admin block creates `pawsey`, sets the given password, adds it to
      `sudo` and writes its sudoers file. */
  lemma AdminSetupCommands(password: string)
    ensures Contains(GeneratePawseyAdminSetup(password), "useradd -m -s /bin/bash pawsey")
    ensures Contains(GeneratePawseyAdminSetup(password), "pawsey:" + password)
    ensures Contains(GeneratePawseyAdminSetup(password), "usermod -aG sudo pawsey")
    ensures Contains(GeneratePawseyAdminSetup(password), "/etc/sudoers.d/pawsey")
  {
    var u := "useradd -m -s /bin/bash pawsey";
    var a := "\n# Create Pawsey admin user\nsudo " + u + "\necho '";
    var b := "' | sudo chpasswd\nsudo ";
    var c := "\n\n# Create sudoers file for Pawsey user\necho 'pawsey ALL=(ALL) NOPASSWD:ALL' | sudo tee ";
    var d := "\nsudo chmod 0440 /etc/sudoers.d/pawsey\n";
    var x, y, z := "pawsey:" + password, "usermod -aG sudo pawsey", "/etc/sudoers.d/pawsey";
    assert GeneratePawseyAdminSetup(password) == a + x + b + y + c + z + d;
    ContainsMiddle("\n# Create Pawsey admin user\nsudo ", u, "\necho '");
    ContainsAlternating(a, x, b, y, c, z, d, u);
  }

  lemma AppendEmpty(a: string)
    ensures a + "" == a
  {
  }

  lemma CancelAlternating(a: string, x1: string, x2: string, b: string, y: string, c: string, z: string, d: string)
    requires a + x1 + b + y + c + z + d == a + x2 + b + y + c + z + d
    ensures x1 == x2
  {
    var r1, r2 := a + x1 + b + y + c + z + d, a + x2 + b + y + c + z + d;
    assert r1[|a|..|a| + |x1|] == x1;
    assert r2[|a|..|a| + |x2|] == x2;
  }

  /** The admin block determines the admin password. */
  lemma AdminSetupInjective(p: string, q: string)
    requires GeneratePawseyAdminSetup(p) == GeneratePawseyAdminSetup(q)
    ensures p == q
  {
    var u := "useradd -m -s /bin/bash pawsey";
    var a := "\n# Create Pawsey admin user\nsudo " + u + "\necho '";
    var b := "' | sudo chpasswd\nsudo ";
    var c := "\n\n# Create sudoers file for Pawsey user\necho 'pawsey ALL=(ALL) NOPASSWD:ALL' | sudo tee ";
    var d := "\nsudo chmod 0440 /etc/sudoers.d/pawsey\n";
    var y, z := "usermod -aG sudo pawsey", "/etc/sudoers.d/pawsey";
    CancelAlternating(a, "pawsey:" + p, "pawsey:" + q, b, y, c, z, d);
    assert ("pawsey:" + p)[7..] == p;
    assert ("pawsey:" + q)[7..] == q;
  }

  // ---------------------------------------------------------------------
  // Per-user block

  /** A user dict with both keys present. */
  predicate Complete(u: UserRecord)
  {
    u.username.Some? && u.password.Some?
  }

  /** Index of the first record lacking a key; `|users|` when there is none. */
  function FirstIncomplete(users: seq<UserRecord>): (i: nat)
    ensures i <= |users|
    ensures forall j :: 0 <= j < i ==> Complete(users[j])
    ensures i < |users| ==> !Complete(users[i])
  {
    if |users| == 0 || !Complete(users[0]) then 0 else 1 + FirstIncomplete(users[1..])
  }

  /** The key an incomplete record is found to lack: `username` is read first. */
  function MissingKey(u: UserRecord): string
  {
    if u.username.None? then "username" else "password"
  }

  const Useradd := "sudo useradd -m -s /bin/bash "
  const EchoQuote := "echo '"
  const Chpasswd := "' | sudo chpasswd"
  const UsermodJupyter := "sudo usermod -aG jupyter "
  const WhitelistAdd := "sudo tljh-config add-item " + "auth.PAMAuthenticator.whitelist "

  /** The four commands that set up one JupyterHub user. */
  function UserCommands(username: string, password: string): seq<string>
  {
    [ Useradd + username,
      EchoQuote + username + ":" + password + Chpasswd,
      UsermodJupyter + username,
      WhitelistAdd + username ]
  }

  /** The `commands` list built by `generate_user_setup`: four commands per
      user in input order, or the KeyError of the first incomplete record. */
  function UserSetupCommands(users: seq<UserRecord>): (r: Outcome<seq<string>>)
    ensures r.Returned? <==> forall i :: 0 <= i < |users| ==> Complete(users[i])
    ensures r.Raised? ==> r.error == KeyError(MissingKey(users[FirstIncomplete(users)]))
    ensures r.Returned? ==> |r.value| == 4 * |users|
    ensures r.Returned? ==> forall i :: 0 <= i < |users| ==>
      r.value[4 * i..4 * i + 4] == UserCommands(users[i].username.value, users[i].password.value)
  {
    if |users| == 0 then Returned([])
    else if users[0].username.None? then Raised(KeyError("username"))
    else if users[0].password.None? then Raised(KeyError("password"))
    else
      var rest :- UserSetupCommands(users[1..]);
      var head := UserCommands(users[0].username.value, users[0].password.value);
      assert forall i :: 1 <= i < |users| ==> (head + rest)[4 * i..4 * i + 4] == rest[4 * (i - 1)..4 * (i - 1) + 4];
      Returned(head + rest)
  }

  /** `generate_user_setup(users)`: the commands joined by newlines. */
  function GenerateUserSetup(users: seq<UserRecord>): (r: Outcome<string>)
    ensures |users| == 0 ==> r == Returned("")
    ensures r.Returned? <==> forall i :: 0 <= i < |users| ==> Complete(users[i])
    ensures r.Raised? ==> r.error == KeyError(MissingKey(users[FirstIncomplete(users)]))
  {
    var commands :- UserSetupCommands(users);
    Returned(Join(commands, "\n"))
  }

  // ---------------------------------------------------------------------
  // Verification block

  const AdminCheck := [
    "echo \"Verifying Pawsey admin user...\"",
    "if id \"pawsey\" >/dev/null 2>&1; then",
    "    echo \"Pawsey admin user created successfully\"",
    "else",
    "    echo \"Failed to create Pawsey admin user\"",
    "    exit 1",
    "fi"
  ]

  /** One list element holding a blank line and the header. */
  const UsersHeader := "\necho \"Verifying JupyterHub users...\""

  /** The six lines that check one user account exists. */
  function UserCheck(username: string): seq<string>
  {
    [ "if id \"" + username + "\" >/dev/null 2>&1; then",
      "    echo \"User " + username + " created successfully\"",
      "else",
      "    echo \"Failed to create user " + username + "\"",
      "    exit 1",
      "fi" ]
  }

  /** The per-user part of the verification list; only `username` is read. */
  function UserChecks(users: seq<UserRecord>): (r: Outcome<seq<string>>)
    ensures r.Returned? <==> forall i :: 0 <= i < |users| ==> users[i].username.Some?
    ensures r.Raised? ==> r.error == KeyError("username")
    ensures r.Returned? ==> |r.value| == 6 * |users|
    ensures r.Returned? ==> forall i :: 0 <= i < |users| ==>
      r.value[6 * i..6 * i + 6] == UserCheck(users[i].username.value)
  {
    if |users| == 0 then Returned([])
    else if users[0].username.None? then Raised(KeyError("username"))
    else
      var rest :- UserChecks(users[1..]);
      var head := UserCheck(users[0].username.value);
      assert forall i :: 1 <= i < |users| ==> (head + rest)[6 * i..6 * i + 6] == rest[6 * (i - 1)..6 * (i - 1) + 6];
      Returned(head + rest)
  }

  /** The `commands` list of `generate_verification_commands`: the seven-line
      admin check, the users header, then six lines per user in input order. */
  function VerificationCommands(users: seq<UserRecord>): (r: Outcome<seq<string>>)
    ensures r.Returned? <==> forall i :: 0 <= i < |users| ==> users[i].username.Some?
    ensures r.Returned? ==> |r.value| == 8 + 6 * |users|
    ensures r.Returned? ==> r.value[..7] == AdminCheck && r.value[7] == UsersHeader
    ensures r.Returned? ==> forall i :: 0 <= i < |users| ==>
      r.value[8 + 6 * i..8 + 6 * i + 6] == UserCheck(users[i].username.value)
  {
    var checks :- UserChecks(users);
    var all := AdminCheck + [UsersHeader] + checks;
    assert forall i :: 0 <= i < |users| ==> all[8 + 6 * i..8 + 6 * i + 6] == checks[6 * i..6 * i + 6];
    Returned(all)
  }

  /** `generate_verification_commands(users)`. */
  function GenerateVerificationCommands(users: seq<UserRecord>): (r: Outcome<string>)
    ensures r.Returned? <==> forall i :: 0 <= i < |users| ==> users[i].username.Some?
  {
    var commands :- VerificationCommands(users);
    Returned(Join(commands, "\n"))
  }

  // ---------------------------------------------------------------------
  // The `usernames` value

  /** The usernames in input order. */
  function UsernameList(users: seq<UserRecord>): (r: Outcome<seq<string>>)
    ensures r.Returned? <==> forall i :: 0 <= i < |users| ==> users[i].username.Some?
    ensures r.Raised? ==> r.error == KeyError("username")
    ensures r.Returned? ==> |r.value| == |users|
    ensures r.Returned? ==> forall i :: 0 <= i < |users| ==> r.value[i] == users[i].username.value
  {
    if |users| == 0 then Returned([])
    else if users[0].username.None? then Raised(KeyError("username"))
    else
      var rest :- UsernameList(users[1..]);
      Returned([users[0].username.value] + rest)
  }

  /** `' '.join(user['username'] for user in users)`. */
  function Usernames(users: seq<UserRecord>): (r: Outcome<string>)
    ensures r.Returned? <==> forall i :: 0 <= i < |users| ==> users[i].username.Some?
  {
    var names :- UsernameList(users);
    Returned(Join(names, " "))
  }

  /** Splitting the `usernames` value on single spaces gives back the
      usernames, provided none contains a space. (This is a fact about the
      text only; the shell's own word splitting, which also splits on tabs
      and expands `$`, quotes and glob characters, is not modelled.) */
  lemma UsernamesWordSplit(users: seq<UserRecord>)
    requires |users| >= 1
    requires forall i :: 0 <= i < |users| ==> users[i].username.Some? && ' ' !in users[i].username.value
    ensures Usernames(users).Returned?
    ensures Split(Usernames(users).value, ' ') == UsernameList(users).value
  {
    SplitJoin(UsernameList(users).value, ' ');
  }

  /** Two users give their names separated by one space (`user1 user2`). */
  lemma UsernamesOfTwo(a: string, p: string, b: string, q: string)
    ensures Usernames([UserRecord(Some(a), Some(p)), UserRecord(Some(b), Some(q))]) == Returned(a + " " + b)
  {
    var users := [UserRecord(Some(a), Some(p)), UserRecord(Some(b), Some(q))];
    assert users[1..] == [UserRecord(Some(b), Some(q))];
    var r := UsernameList(users);
    assert r.Returned?;
    assert r.value == [a, b];
    JoinCons(a, [b], " ");
  }

  lemma CommandTextSingleLine1()
    ensures '\n' !in Useradd && '\n' !in EchoQuote && '\n' !in Chpasswd
  {
  }

  lemma CommandTextSingleLine2()
    ensures '\n' !in UsermodJupyter && '\n' !in WhitelistAdd
  {
  }

  /** Each user command is one line when credentials hold no newline. */
  lemma UserCommandsSingleLine(username: string, password: string, j: nat)
    requires '\n' !in username && '\n' !in password && j < 4
    ensures '\n' !in UserCommands(username, password)[j]
  {
    CommandTextSingleLine1();
    CommandTextSingleLine2();
  }

  /** No command of the user block spans lines when no credential holds a newline. */
  lemma {:induction false} UserSetupCommandsSingleLine(users: seq<UserRecord>)
    requires forall i :: 0 <= i < |users| ==>
      Complete(users[i]) && '\n' !in users[i].username.value && '\n' !in users[i].password.value
    ensures UserSetupCommands(users).Returned?
    ensures forall k :: 0 <= k < |UserSetupCommands(users).value| ==> '\n' !in UserSetupCommands(users).value[k]
  {
    if |users| > 0 {
      UserSetupCommandsSingleLine(users[1..]);
      var u := users[0];
      var head := UserCommands(u.username.value, u.password.value);
      var rest := UserSetupCommands(users[1..]).value;
      assert UserSetupCommands(users).value == head + rest;
      forall j | 0 <= j < 4
        ensures '\n' !in head[j]
      {
        UserCommandsSingleLine(u.username.value, u.password.value, j);
      }
    }
  }

  /** Splitting the user block on newlines gives back exactly the command
      list: four lines per user, when no credential holds a newline. */
  lemma UserSetupLines(users: seq<UserRecord>)
    requires |users| >= 1
    requires forall i :: 0 <= i < |users| ==>
      Complete(users[i]) && '\n' !in users[i].username.value && '\n' !in users[i].password.value
    ensures GenerateUserSetup(users).Returned?
    ensures Split(GenerateUserSetup(users).value, '\n') == UserSetupCommands(users).value
    ensures |Split(GenerateUserSetup(users).value, '\n')| == 4 * |users|
  {
    UserSetupCommandsSingleLine(users);
    SplitJoin(UserSetupCommands(users).value, '\n');
  }

  // ---------------------------------------------------------------------
  // The full script

  /** The five values `generate_full_script` hands to `substitute`. */
  function ScriptValues(adminSetup: string, url: string, userSetup: string, names: string, verification: string): map<Slot, string>
  {
    map[
      PawseySetupSlot := adminSetup,
      RequirementsUrlSlot := url,
      UserSetupSlot := userSetup,
      UsernamesSlot := names,
      VerificationSlot := verification
    ]
  }

  /** The rendered script part by part: template text alternating with the
      substituted values, in template order. */
  function ScriptParts(adminSetup: string, url: string, userSetup: string, names: string, verification: string): seq<string>
  {
    [ Head, adminSetup, AfterAdmin, url, AfterUrl, userSetup, AfterUserSetup,
      names, AfterUsernames, "$", AfterEscape, verification, Tail ]
  }

  /** The rendering of each piece, in order. */
  function PieceTexts<N>(ps: seq<Piece<N>>, m: map<N, string>): (r: seq<string>)
    requires Bound(ps, m)
    ensures |r| == |ps|
    ensures forall i :: 0 <= i < |ps| ==> r[i] == match ps[i] case Text(s) => s case Dollar => "$" case Ph(n) => m[n]
  {
    seq(|ps|, i requires 0 <= i < |ps| => match ps[i] case Text(s) => s case Dollar => "$" case Ph(n) => m[n])
  }

  /** Filling a template concatenates the renderings of its pieces. */
  lemma {:induction false} FillIsConcat<N>(ps: seq<Piece<N>>, m: map<N, string>)
    requires Bound(ps, m)
    ensures Fill(ps, m) == Concat(PieceTexts(ps, m))
    decreases |ps|
  {
    if |ps| > 0 {
      assert Bound(ps[1..], m) by {
        forall i | 0 <= i < |ps| - 1
          ensures ps[1..][i] == ps[i + 1]
        {
        }
      }
      FillIsConcat(ps[1..], m);
      assert PieceTexts(ps, m)[1..] == PieceTexts(ps[1..], m);
    }
  }

  /** Every placeholder of the template has a value. */
  lemma TemplateBound(adminSetup: string, url: string, userSetup: string, names: string, verification: string)
    ensures Bound(TemplatePieces, ScriptValues(adminSetup, url, userSetup, names, verification))
  {
  }

  /** Piece by piece, the template renders to the script parts. */
  lemma TemplateTexts(adminSetup: string, url: string, userSetup: string, names: string, verification: string)
    requires Bound(TemplatePieces, ScriptValues(adminSetup, url, userSetup, names, verification))
    ensures PieceTexts(TemplatePieces, ScriptValues(adminSetup, url, userSetup, names, verification))
         == ScriptParts(adminSetup, url, userSetup, names, verification)
  {
    var texts := PieceTexts(TemplatePieces, ScriptValues(adminSetup, url, userSetup, names, verification));
    var parts := ScriptParts(adminSetup, url, userSetup, names, verification);
    forall i | 0 <= i < |parts|
      ensures texts[i] == parts[i]
    {
    }
  }

  /** Filling the template with the five values is the concatenation of the
      script parts. */
  lemma TemplateRendering(adminSetup: string, url: string, userSetup: string, names: string, verification: string)
    ensures Bound(TemplatePieces, ScriptValues(adminSetup, url, userSetup, names, verification))
    ensures Fill(TemplatePieces, ScriptValues(adminSetup, url, userSetup, names, verification))
         == Concat(ScriptParts(adminSetup, url, userSetup, names, verification))
  {
    TemplateBound(adminSetup, url, userSetup, names, verification);
    FillIsConcat(TemplatePieces, ScriptValues(adminSetup, url, userSetup, names, verification));
    TemplateTexts(adminSetup, url, userSetup, names, verification);
  }

  /** `generate_full_script(admin_password, users, requirements_url)`: the
      template with the admin block, the URL, the user block, the usernames
      and the verification block placed verbatim at their placeholders, or
      the KeyError of the first incomplete user record. Only the user block
      can raise (it is built first and reads both keys), and the `except`
      branch ends in a bare `raise`, so that KeyError leaves the function
      (its debug output, which rebuilds the user block, raises the same
      KeyError even before the `raise` is reached). */
  function GenerateFullScript(adminPassword: string, users: seq<UserRecord>, requirementsUrl: string): (r: Outcome<string>)
    ensures r.Returned? <==> forall i :: 0 <= i < |users| ==> Complete(users[i])
    ensures r.Raised? ==> r.error == KeyError(MissingKey(users[FirstIncomplete(users)]))
  {
    var userSetup :- GenerateUserSetup(users);
    // With every record complete, the usernames and the checks cannot fail.
    var names := Usernames(users).value;
    var verification := GenerateVerificationCommands(users).value;
    var adminSetup := GeneratePawseyAdminSetup(adminPassword);
    TemplateBound(adminSetup, requirementsUrl, userSetup, names, verification);
    Returned(Fill(TemplatePieces, ScriptValues(adminSetup, requirementsUrl, userSetup, names, verification)))
  }

  /** With complete records, the script is the template filled with the
      five generated blocks. */
  lemma FullScriptFill(adminPassword: string, users: seq<UserRecord>, requirementsUrl: string)
    requires forall i :: 0 <= i < |users| ==> Complete(users[i])
    ensures GenerateUserSetup(users).Returned? && Usernames(users).Returned?
    ensures GenerateVerificationCommands(users).Returned?
    ensures Bound(TemplatePieces, ScriptValues(GeneratePawseyAdminSetup(adminPassword), requirementsUrl,
      GenerateUserSetup(users).value, Usernames(users).value, GenerateVerificationCommands(users).value))
    ensures GenerateFullScript(adminPassword, users, requirementsUrl) == Returned(Fill(TemplatePieces, ScriptValues(
      GeneratePawseyAdminSetup(adminPassword), requirementsUrl, GenerateUserSetup(users).value,
      Usernames(users).value, GenerateVerificationCommands(users).value)))
  {
    TemplateBound(GeneratePawseyAdminSetup(adminPassword), requirementsUrl,
      GenerateUserSetup(users).value, Usernames(users).value, GenerateVerificationCommands(users).value);
  }

  /** A rendered script is the template text with the admin block, the URL,
      the user block, the usernames and the verification block placed
      verbatim at their placeholders, in template order, and `$$` as `$`. */
  lemma FullScriptLayout(adminPassword: string, users: seq<UserRecord>, requirementsUrl: string)
    requires forall i :: 0 <= i < |users| ==> Complete(users[i])
    ensures GenerateUserSetup(users).Returned? && Usernames(users).Returned?
    ensures GenerateVerificationCommands(users).Returned?
    ensures GenerateFullScript(adminPassword, users, requirementsUrl) == Returned(Concat(ScriptParts(
      GeneratePawseyAdminSetup(adminPassword), requirementsUrl, GenerateUserSetup(users).value,
      Usernames(users).value, GenerateVerificationCommands(users).value)))
  {
    FullScriptFill(adminPassword, users, requirementsUrl);
    TemplateRendering(GeneratePawseyAdminSetup(adminPassword), requirementsUrl, GenerateUserSetup(users).value,
      Usernames(users).value, GenerateVerificationCommands(users).value);
  }

  lemma StartsWithShorter(s: string, p: string, q: string)
    requires StartsWith(s, p + q)
    ensures StartsWith(s, p)
  {
    assert s[..|p|] == (p + q)[..|p|];
  }

  /** A window of three consecutive parts, trimmed at both ends, is in the whole. */
  lemma ThreeWindow(parts: seq<string>, i: nat, a: string, b: string, y: string, c: string, d: string)
    requires i + 3 <= |parts| && parts[i] == a + b && parts[i + 1] == y && parts[i + 2] == c + d
    ensures Contains(Concat(parts), b + y + c)
  {
    ConcatContainsThree(parts, i);
    assert parts[i] + parts[i + 1] + parts[i + 2] == a + (b + y + c) + d;
    ContainsMiddle(a, b + y + c, d);
    ContainsTransitive(Concat(parts), parts[i] + parts[i + 1] + parts[i + 2], b + y + c);
  }


  /** The rendered template starts with the shebang line. */
  lemma ScriptStartsWithShebang(adminSetup: string, url: string, userSetup: string, names: string, verification: string)
    ensures StartsWith(Concat(ScriptParts(adminSetup, url, userSetup, names, verification)), Shebang)
  {
    var parts := ScriptParts(adminSetup, url, userSetup, names, verification);
    ConcatStartsWith(parts);
    StartsWithShorter(Concat(parts), Shebang, HeadBody);
  }

  /** Each inserted block appears verbatim in the rendered template, and the
      removal loop keeps its shape around the usernames and the escape. */
  lemma ScriptContainsAdmin(adminSetup: string, url: string, userSetup: string, names: string, verification: string)
    ensures Contains(Concat(ScriptParts(adminSetup, url, userSetup, names, verification)), adminSetup)
  {
    ConcatContainsPart(ScriptParts(adminSetup, url, userSetup, names, verification), 1);
  }

  lemma ScriptContainsUrl(adminSetup: string, url: string, userSetup: string, names: string, verification: string)
    ensures Contains(Concat(ScriptParts(adminSetup, url, userSetup, names, verification)), url)
  {
    ConcatContainsPart(ScriptParts(adminSetup, url, userSetup, names, verification), 3);
  }

  lemma ScriptContainsUserSetup(adminSetup: string, url: string, userSetup: string, names: string, verification: string)
    ensures Contains(Concat(ScriptParts(adminSetup, url, userSetup, names, verification)), userSetup)
  {
    ConcatContainsPart(ScriptParts(adminSetup, url, userSetup, names, verification), 5);
  }

  lemma ScriptContainsVerification(adminSetup: string, url: string, userSetup: string, names: string, verification: string)
    ensures Contains(Concat(ScriptParts(adminSetup, url, userSetup, names, verification)), verification)
  {
    ConcatContainsPart(ScriptParts(adminSetup, url, userSetup, names, verification), 11);
  }

  lemma ScriptContainsLoop(adminSetup: string, url: string, userSetup: string, names: string, verification: string)
    ensures Contains(Concat(ScriptParts(adminSetup, url, userSetup, names, verification)), LoopHeader + names + LoopDo)
  {
    ThreeWindow(ScriptParts(adminSetup, url, userSetup, names, verification), 6, RemoveSudoIntro, LoopHeader, names, LoopDo, Deluser);
  }

  lemma ScriptContainsEscape(adminSetup: string, url: string, userSetup: string, names: string, verification: string)
    ensures Contains(Concat(ScriptParts(adminSetup, url, userSetup, names, verification)), Deluser + "$" + LoopVariable)
  {
    ThreeWindow(ScriptParts(adminSetup, url, userSetup, names, verification), 8, LoopDo, Deluser, "$", LoopVariable, EscapeRest);
  }

  /** The rendered template sets the admin password it was given. */
  lemma ScriptSetsAdminPassword(password: string, url: string, userSetup: string, names: string, verification: string)
    ensures Contains(Concat(ScriptParts(GeneratePawseyAdminSetup(password), url, userSetup, names, verification)),
                     "pawsey:" + password)
  {
    var block := GeneratePawseyAdminSetup(password);
    AdminSetupCommands(password);
    ScriptContainsAdmin(block, url, userSetup, names, verification);
    ContainsTransitive(Concat(ScriptParts(block, url, userSetup, names, verification)), block, "pawsey:" + password);
  }
}
