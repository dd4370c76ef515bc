/** The base script template as text: substituting the five generated
    blocks into it by PEP 292 rules gives exactly the script
    `generate_full_script` returns. */
module TemplateSource {
  import opened Common
  import opened UserData
  import opened ScriptText

  /** The template pieces under their placeholder names. */
  const NamedTemplate: seq<Piece<string>> :=
    seq(|TemplatePieces|, i requires 0 <= i < |TemplatePieces| => NamePiece(TemplatePieces[i]))

  /** The template text as the source writes it, with `$name` and `$$`. */
  const BaseTemplate := Raw(NamedTemplate)

  /** The keyword arguments `generate_full_script` passes to `substitute`. */
  function NamedValues(adminSetup: string, url: string, userSetup: string, names: string, verification: string)
    : map<string, string>
  {
    map[
      "pawsey_setup" := adminSetup,
      "requirements_url" := url,
      "user_setup" := userSetup,
      "usernames" := names,
      "verification_commands" := verification
    ]
  }

  lemma SlotNamesIdentifiers(s: Slot)
    ensures IsIdentifier(SlotName(s))
  {
  }

  /** A template of the script's shape: seven literal texts around the five
      named placeholders and the `$$` escape. */
  function NamedShape(head: string, afterAdmin: string, afterUrl: string, afterUserSetup: string,
                      afterUsernames: string, afterEscape: string, tail: string): seq<Piece<string>>
  {
    [ Text(head), Ph("pawsey_setup"),
      Text(afterAdmin), Ph("requirements_url"),
      Text(afterUrl), Ph("user_setup"),
      Text(afterUserSetup), Ph("usernames"),
      Text(afterUsernames), Dollar,
      Text(afterEscape), Ph("verification_commands"),
      Text(tail) ]
  }

  /** The named template has the script's shape around the script text. */
  lemma NamedTemplateShape()
    ensures NamedTemplate == NamedShape(Head, AfterAdmin, AfterUrl, AfterUserSetup, AfterUsernames, AfterEscape, Tail)
  {
  }

  /** A text piece that may follow a placeholder: non-empty, `$`-free, and
      not starting with an identifier character. */
  predicate Follower(t: string)
  {
    |t| > 0 && '$' !in t && !IsIdChar(t[0])
  }

  /** The shape is well formed whatever its literal text, as long as the
      text is `$`-free and each placeholder is followed by a character that
      ends its name. */
  lemma ShapeWellFormed(head: string, afterAdmin: string, afterUrl: string, afterUserSetup: string,
                        afterUsernames: string, afterEscape: string, tail: string)
    requires |head| > 0 && '$' !in head
    requires Follower(afterAdmin) && Follower(afterUrl) && Follower(afterUserSetup)
    requires Follower(afterUsernames) && Follower(tail)
    requires |afterEscape| > 0 && '$' !in afterEscape
    ensures WellFormed(NamedShape(head, afterAdmin, afterUrl, afterUserSetup, afterUsernames, afterEscape, tail))
  {
    SlotNamesIdentifiers(PawseySetupSlot);
    SlotNamesIdentifiers(RequirementsUrlSlot);
    SlotNamesIdentifiers(UserSetupSlot);
    SlotNamesIdentifiers(UsernamesSlot);
    SlotNamesIdentifiers(VerificationSlot);
  }

  /** The template text scans back into its pieces: literal text holds no
      `$`, and every placeholder name is an identifier ended by a character
      that cannot continue it. */
  lemma TemplateWellFormed()
    ensures WellFormed(NamedTemplate)
  {
    NamedTemplateShape();
    HeadFree();
    AfterAdminFree();
    AfterUrlFree();
    AfterUserSetupFree();
    AfterUsernamesFree();
    AfterEscapeFree();
    TailFree();
    ShapeWellFormed(Head, AfterAdmin, AfterUrl, AfterUserSetup, AfterUsernames, AfterEscape, Tail);
  }

  /** Under the five names, the shape renders to its texts alternating with
      the values, and `$$` to `$`. */
  lemma ShapeTexts(head: string, afterAdmin: string, afterUrl: string, afterUserSetup: string,
                   afterUsernames: string, afterEscape: string, tail: string,
                   adminSetup: string, url: string, userSetup: string, names: string, verification: string)
    ensures var ps := NamedShape(head, afterAdmin, afterUrl, afterUserSetup, afterUsernames, afterEscape, tail);
            var m := NamedValues(adminSetup, url, userSetup, names, verification);
            && Bound(ps, m)
            && PieceTexts(ps, m) == [ head, adminSetup, afterAdmin, url, afterUrl, userSetup, afterUserSetup,
                                      names, afterUsernames, "$", afterEscape, verification, tail ]
  {
    var ps := NamedShape(head, afterAdmin, afterUrl, afterUserSetup, afterUsernames, afterEscape, tail);
    var m := NamedValues(adminSetup, url, userSetup, names, verification);
    assert Bound(ps, m);
    var texts := PieceTexts(ps, m);
    var parts := [ head, adminSetup, afterAdmin, url, afterUrl, userSetup, afterUserSetup,
                   names, afterUsernames, "$", afterEscape, verification, tail ];
    forall i | 0 <= i < |parts|
      ensures texts[i] == parts[i]
    {
    }
  }

  /** Under their names, the template's pieces render to the script parts. */
  lemma NamedTexts(adminSetup: string, url: string, userSetup: string, names: string, verification: string)
    ensures Bound(NamedTemplate, NamedValues(adminSetup, url, userSetup, names, verification))
    ensures PieceTexts(NamedTemplate, NamedValues(adminSetup, url, userSetup, names, verification))
         == ScriptParts(adminSetup, url, userSetup, names, verification)
  {
    NamedTemplateShape();
    ShapeTexts(Head, AfterAdmin, AfterUrl, AfterUserSetup, AfterUsernames, AfterEscape, Tail,
               adminSetup, url, userSetup, names, verification);
  }

  /** Substituting the five values into the template text yields the
      concatenation of the script parts. */
  lemma SubstituteTemplate(adminSetup: string, url: string, userSetup: string, names: string, verification: string)
    ensures Substitute(BaseTemplate, NamedValues(adminSetup, url, userSetup, names, verification))
         == Returned(Concat(ScriptParts(adminSetup, url, userSetup, names, verification)))
  {
    var m := NamedValues(adminSetup, url, userSetup, names, verification);
    TemplateWellFormed();
    NamedTexts(adminSetup, url, userSetup, names, verification);
    SubstitutePieces(NamedTemplate, m);
    FillIsConcat(NamedTemplate, m);
  }

  /** Filling the template pieces is the same as substituting into the
      template text. */
  lemma FillIsSubstitution(adminSetup: string, url: string, userSetup: string, names: string, verification: string)
    ensures Bound(TemplatePieces, ScriptValues(adminSetup, url, userSetup, names, verification))
    ensures Substitute(BaseTemplate, NamedValues(adminSetup, url, userSetup, names, verification))
         == Returned(Fill(TemplatePieces, ScriptValues(adminSetup, url, userSetup, names, verification)))
  {
    TemplateRendering(adminSetup, url, userSetup, names, verification);
    SubstituteTemplate(adminSetup, url, userSetup, names, verification);
  }

  /** With complete user records, `generate_full_script` is PEP 292
      substitution of the admin block, the URL, the user block, the
      usernames and the verification block into the template text. */
  lemma FullScriptIsSubstitution(adminPassword: string, users: seq<UserRecord>, requirementsUrl: string)
    requires forall i :: 0 <= i < |users| ==> Complete(users[i])
    ensures GenerateUserSetup(users).Returned? && Usernames(users).Returned?
    ensures GenerateVerificationCommands(users).Returned?
    ensures GenerateFullScript(adminPassword, users, requirementsUrl)
         == Substitute(BaseTemplate, NamedValues(GeneratePawseyAdminSetup(adminPassword), requirementsUrl,
              GenerateUserSetup(users).value, Usernames(users).value, GenerateVerificationCommands(users).value))
  {
    FullScriptFill(adminPassword, users, requirementsUrl);
    FillIsSubstitution(GeneratePawseyAdminSetup(adminPassword), requirementsUrl, GenerateUserSetup(users).value,
      Usernames(users).value, GenerateVerificationCommands(users).value);
  }
}
