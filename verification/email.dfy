/** `EmailService`: the two messages the booking flow mails to the customer.

    Only the composition is modelled: the subject, the body, the sender and
    the recipient list handed to `send_mail`. The send itself is a foreign
    call, and `str(booking_time)` is supplied as text. */
module Email {
  import opened Common
  import Models

  /** The arguments of one `send_mail(subject, message, from, recipients)` call. */
  datatype Mail = Mail(subject: string, body: string, sender: string, recipients: seq<string>)

  // ---------------------------------------------------------------------
  // Booking confirmation

  const ConfirmationSubject := "Booking Confirmation"
  const ConfirmationGreeting := "Dear User,\n\nYour booking has been successfully registered with the following details:\n\n"
  const ConfirmationClosing := "JupyterHub URLs will be sent in a follow-up email once the instances are ready.\n\n"
    + "Please keep this information secure for your records.\n\n" + "Thank you for booking with us!"

  /** One credential line. */
  function CredentialLine(c: Models.UserCredential): string
  {
    "Username: " + c.username + ", Password: " + c.password
  }

  /** One line per credential, in input order. */
  function CredentialLines(credentials: seq<Models.UserCredential>): (r: seq<string>)
    ensures |r| == |credentials|
    ensures forall i :: 0 <= i < |r| ==> r[i] == CredentialLine(credentials[i])
  {
    if |credentials| == 0 then [] else [CredentialLine(credentials[0])] + CredentialLines(credentials[1..])
  }

  /** The body's parts: greeting, the email and booking time, the
      credential block, the closing. */
  function ConfirmationParts(email: string, bookingTime: string, block: string): seq<string>
  {
    [ConfirmationGreeting, "Email: " + email + "\n", "Booking Time: " + bookingTime + "\n\n",
     "Generated User Credentials:\n", block, "\n\n", ConfirmationClosing]
  }

  /** `send_initial_confirmation(email, booking_time, credentials)`. */
  function InitialConfirmation(email: string, bookingTime: string, credentials: seq<Models.UserCredential>, sender: string)
    : (m: Mail)
    ensures m.subject == "Booking Confirmation" && m.recipients == [email] && m.sender == sender
    ensures Contains(m.body, "Email: " + email + "\n")
    ensures Contains(m.body, "Booking Time: " + bookingTime + "\n\n")
    ensures Contains(m.body, Join(CredentialLines(credentials), "\n"))
  {
    var parts := ConfirmationParts(email, bookingTime, Join(CredentialLines(credentials), "\n"));
    ConcatContainsPart(parts, 1);
    ConcatContainsPart(parts, 2);
    ConcatContainsPart(parts, 4);
    Mail(ConfirmationSubject, Concat(parts), sender, [email])
  }

  /** Every credential's line, with its username and password, is in the
      confirmation. */
  lemma ConfirmationListsCredential(email: string, bookingTime: string, credentials: seq<Models.UserCredential>,
                                    sender: string, i: nat)
    requires i < |credentials|
    ensures Contains(InitialConfirmation(email, bookingTime, credentials, sender).body, CredentialLine(credentials[i]))
    ensures Contains(InitialConfirmation(email, bookingTime, credentials, sender).body, credentials[i].username)
    ensures Contains(InitialConfirmation(email, bookingTime, credentials, sender).body, credentials[i].password)
  {
    var lines := CredentialLines(credentials);
    var body := InitialConfirmation(email, bookingTime, credentials, sender).body;
    var c := credentials[i];
    assert Contains(body, CredentialLine(c)) by {
      JoinContainsPart(lines, "\n", i);
      ContainsTransitive(body, Join(lines, "\n"), CredentialLine(c));
    }
    LineHoldsCredential(c);
    ContainsTransitive(body, CredentialLine(c), c.username);
    ContainsTransitive(body, CredentialLine(c), c.password);
  }

  /** A credential line holds the username and the password. */
  lemma LineHoldsCredential(c: Models.UserCredential)
    ensures Contains(CredentialLine(c), c.username) && Contains(CredentialLine(c), c.password)
  {
    ContainsMiddle("Username: ", c.username, ", Password: " + c.password);
    assert "Username: " + c.username + (", Password: " + c.password) == CredentialLine(c);
    ContainsMiddle("Username: " + c.username + ", Password: ", c.password, "");
    assert "Username: " + c.username + ", Password: " + c.password + "" == CredentialLine(c);
  }

  /** A credential line holds a newline only if its username or password does. */
  lemma LineFree(c: Models.UserCredential)
    requires '\n' !in c.username && '\n' !in c.password
    ensures '\n' !in CredentialLine(c)
  {
    var line := CredentialLine(c);
    forall k | 0 <= k < |line|
      ensures line[k] != '\n'
    {
      if k < 10 {
        assert line[k] == "Username: "[k];
      } else if k < 10 + |c.username| {
        assert line[k] == c.username[k - 10];
      } else if k < 22 + |c.username| {
        assert line[k] == ", Password: "[k - 10 - |c.username|];
      } else {
        assert line[k] == c.password[k - 22 - |c.username|];
      }
    }
  }

  /** The credential block reads back: split on newlines it gives the lines
      in input order, one per credential, when no username or password holds
      a newline (the generated hex tokens never do). */
  lemma CredentialBlockSplits(credentials: seq<Models.UserCredential>)
    requires |credentials| > 0
    requires forall i :: 0 <= i < |credentials| ==> '\n' !in credentials[i].username && '\n' !in credentials[i].password
    ensures Split(Join(CredentialLines(credentials), "\n"), '\n') == CredentialLines(credentials)
  {
    var lines := CredentialLines(credentials);
    forall i | 0 <= i < |lines|
      ensures '\n' !in lines[i]
    {
      LineFree(credentials[i]);
    }
    SplitJoin(lines, '\n');
  }

  // ---------------------------------------------------------------------
  // Instance details

  const DetailsSubject := "JupyterHub Access Information"
  const DetailsGreeting := "Dear User,\n\nYour JupyterHub instances are now ready! Here are the access details:\n\n"
  const ImportantNotes := "Important Notes:\n"
    + "1. It may take up to 5-10 minutes for the JupyterHub services to fully initialize.\n"
    + "2. Use the JupyterHub user credentials provided in the previous email to log in.\n"
    + "3. The Pawsey admin credentials are for system administration only and should be kept secure.\n"
    + "4. You may see a security warning about the certificate - this is expected for the demo environment.\n\n"
    + "If you experience any issues accessing the service, please wait a few minutes and try again.\n\n"
    + "Best regards,\n" + "Your JupyterHub Team"
  const UsersHeading := "\nJupyterHub Users assigned to this instance:\n"
  const AdminHeading := "\n\nAdmin Access Credentials (for system administration only):\n"

  /** One `(instance, users, pawsey_credentials)` entry. */
  datatype InstanceInfo = InstanceInfo(instance: Models.EC2InstanceRecord, users: seq<UserRecord>,
                                       admin: AdminCredentials)

  /** `"- " + user['username']` for every user; a user without a username
      raises KeyError. */
  function UserLines(users: seq<UserRecord>): (r: Outcome<seq<string>>)
    ensures r.Returned? <==> forall i :: 0 <= i < |users| ==> users[i].username.Some?
    ensures r.Returned? ==> |r.value| == |users|
    ensures r.Returned? ==> forall i :: 0 <= i < |users| ==> r.value[i] == "- " + users[i].username.value
    ensures r.Raised? ==> r.error == KeyError("username")
  {
    if |users| == 0 then Returned([])
    else if users[0].username.None? then Raised(KeyError("username"))
    else
      var rest :- UserLines(users[1..]);
      Returned(["- " + users[0].username.value] + rest)
  }

  /** The parts of one instance's block. */
  function BlockParts(info: InstanceInfo, lines: seq<string>): seq<string>
  {
    ["Instance URL: http://" + info.instance.publicDns, UsersHeading, Join(lines, "\n"), AdminHeading,
     "Username: " + info.admin.username + "\n", "Password: " + info.admin.password + "\n"]
  }

  /** The block for one instance: its URL, its users one per line, and the
      admin credentials. */
  function InstanceBlock(info: InstanceInfo): (r: Outcome<string>)
    ensures r.Returned? <==> UserLines(info.users).Returned?
    ensures r.Raised? ==> r.error == KeyError("username")
    ensures r.Returned? ==> StartsWith(r.value, "Instance URL: http://" + info.instance.publicDns)
    ensures r.Returned? ==> Contains(r.value, Join(UserLines(info.users).value, "\n"))
  {
    var lines :- UserLines(info.users);
    ConcatStartsWith(BlockParts(info, lines));
    ConcatContainsPart(BlockParts(info, lines), 2);
    Returned(Concat(BlockParts(info, lines)))
  }

  /** The blocks of all instances, in order; the first entry with a user
      lacking a username raises. */
  function InstanceBlocks(infos: seq<InstanceInfo>): (r: Outcome<seq<string>>)
    ensures r.Returned? <==> forall i :: 0 <= i < |infos| ==> InstanceBlock(infos[i]).Returned?
    ensures r.Raised? ==> r.error == KeyError("username")
    ensures r.Returned? ==> |r.value| == |infos|
    ensures r.Returned? ==> forall i :: 0 <= i < |infos| ==> InstanceBlock(infos[i]) == Returned(r.value[i])
  {
    if |infos| == 0 then Returned([])
    else
      var head :- InstanceBlock(infos[0]);
      var rest :- InstanceBlocks(infos[1..]);
      Returned([head] + rest)
  }

  /** The body's parts: greeting, the blocks joined by newlines, the notes. */
  function DetailsParts(blocks: seq<string>): seq<string>
  {
    [DetailsGreeting, Join(blocks, "\n"), "\n", ImportantNotes]
  }

  /** `send_instance_details(email, instance_info)`. */
  function InstanceDetails(email: string, infos: seq<InstanceInfo>, sender: string): (r: Outcome<Mail>)
    ensures r.Returned? <==> forall i :: 0 <= i < |infos| ==> forall j :: 0 <= j < |infos[i].users| ==> infos[i].users[j].username.Some?
    ensures r.Returned? ==> r.value.subject == "JupyterHub Access Information" && r.value.recipients == [email]
    ensures r.Raised? ==> r.error == KeyError("username")
    ensures r.Returned? ==> Contains(r.value.body, Join(InstanceBlocks(infos).value, "\n"))
  {
    var blocks :- InstanceBlocks(infos);
    ConcatContainsPart(DetailsParts(blocks), 1);
    Returned(Mail(DetailsSubject, Concat(DetailsParts(blocks)), sender, [email]))
  }

  /** Each instance's block is in the message, and it starts with the
      instance's URL. */
  lemma DetailsListInstance(email: string, infos: seq<InstanceInfo>, sender: string, i: nat)
    requires InstanceDetails(email, infos, sender).Returned?
    requires i < |infos|
    ensures InstanceBlock(infos[i]).Returned?
    ensures Contains(InstanceDetails(email, infos, sender).value.body, InstanceBlock(infos[i]).value)
    ensures StartsWith(InstanceBlock(infos[i]).value, "Instance URL: http://" + infos[i].instance.publicDns)
  {
    var blocks := InstanceBlocks(infos).value;
    JoinContainsPart(blocks, "\n", i);
    ConcatContainsPart(DetailsParts(blocks), 1);
    ContainsTransitive(Concat(DetailsParts(blocks)), Join(blocks, "\n"), blocks[i]);
  }

  /** A block lists the instance's `j`-th user as `- <username>`, and its
      admin username and password. */
  lemma BlockListsUser(info: InstanceInfo, j: nat)
    requires InstanceBlock(info).Returned?
    requires j < |info.users|
    ensures Contains(InstanceBlock(info).value, "- " + info.users[j].username.value)
    ensures Contains(InstanceBlock(info).value, "Username: " + info.admin.username + "\n")
    ensures Contains(InstanceBlock(info).value, "Password: " + info.admin.password + "\n")
  {
    var lines := UserLines(info.users).value;
    var parts := BlockParts(info, lines);
    JoinContainsPart(lines, "\n", j);
    ConcatContainsPart(parts, 2);
    ContainsTransitive(Concat(parts), Join(lines, "\n"), lines[j]);
    ConcatContainsPart(parts, 4);
    ConcatContainsPart(parts, 5);
  }

  /** The user list of a block reads back: split on newlines it gives one
      `- <username>` line per user, in order, when no username holds a
      newline. */
  lemma UserLinesSplit(users: seq<UserRecord>)
    requires |users| > 0
    requires forall i :: 0 <= i < |users| ==> users[i].username.Some? && '\n' !in users[i].username.value
    ensures UserLines(users).Returned?
    ensures Split(Join(UserLines(users).value, "\n"), '\n') == UserLines(users).value
  {
    var lines := UserLines(users).value;
    forall i | 0 <= i < |lines|
      ensures '\n' !in lines[i]
    {
      assert '\n' !in "- ";
      assert lines[i] == "- " + users[i].username.value;
    }
    SplitJoin(lines, '\n');
  }
}
