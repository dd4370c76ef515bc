# EC2 JupyterHub provisioning — a Dafny model

This project models the core of a Django booking service. The service
provisions AWS EC2 instances running The Littlest JupyterHub (TLJH) for
the users of a booking. The model covers these parts:

- **User data** (`UserData`, `ScriptText`, `TemplateSource`, `RenderedScript`).
  The bootstrap script each instance receives is a Python `string.Template`
  (PEP 292) with five placeholders.
  - The three generators are modelled: the `pawsey` admin block, four
    commands per user, and the verification block.
  - `Substitute` is a general PEP 292 substitution over raw text. The
    template is also a list of literal and placeholder pieces, and a lemma
    proves that substituting into the template's text equals filling its
    pieces.
- **Security group** (`Security`): find-or-create a group by exact name,
  classify an `authorize_ingress` answer as a boolean, and combine the
  three JupyterHub rules under a short-circuiting `all(...)`.
- **Instances** (`InstanceManager`): one single-instance launch request
  per configuration, with 1-based `Name` tags and the first failure
  re-raised. The readiness wait runs on a remaining-time budget, with
  `int(remaining/5)` waiter attempts and a 180-second settle sleep.
- **Orchestrator** (`Orchestrator`): the batching of credentials, one admin
  password per batch, and the five-stage pipeline of `create_ec2_instances`.
  The first stage that fails ends the run with `None`.
- **Lambda handlers** (`LambdaHandlers`): the stop and terminate decisions
  on the described instance state.
- **Configuration** (`Config`): the dataclass defaults, the environment
  overrides (raw strings, applied only when set and non-empty), and
  `instance_tags`.
- **Services** (`Email`, `BookingService`, `Tasks`, `Forms`): the two
  e-mail bodies, credential generation, recording the provisioned
  instances and the `ec2_instances_created` flag, the schedule-if-future
  decision, the scheduled task's guards, and the booking form's checks.

The model is functional. Every call into AWS, the Django ORM, the mail
transport, the clock, the task queue or `secrets.token_hex` is an input:

- a `Common.Outcome` value (`Returned(v)` or `Raised(e)`) for a single call;
- a function from the call's index to its outcome for a repeated call.

Python exceptions are the datatype `Common.Exception`. A `try`/`except`
that turns an exception into `None` or `False` appears as exactly that
case split.

## Model

| member | source | states |
|---|---|---|
| UserData.AdminSetupCommands | aws_ec2/ec2_utils/user_data.py:61-80 | The admin block creates user `pawsey`, sets `pawsey:<password>` through `chpasswd`, adds `pawsey` to `sudo` and writes `/etc/sudoers.d/pawsey`. |
| UserData.AdminSetupInjective | aws_ec2/ec2_utils/user_data.py:71-80 | The admin block depends only on the password, and different passwords give different blocks. |
| UserData.UserSetupCommands | aws_ec2/ec2_utils/user_data.py:92-100 | The command list has exactly four commands per user, in input order: useradd, `chpasswd` with `username:password`, usermod into `jupyter`, and the whitelist add. It fails exactly when some record lacks a key, with the KeyError of the first such record (`username` is read first). |
| UserData.GenerateUserSetup | aws_ec2/ec2_utils/user_data.py:92-100 | An empty batch gives the empty string. The block is produced exactly when every record has both keys, and otherwise the KeyError of the first incomplete record is raised. |
| UserData.UserSetupLines | aws_ec2/ec2_utils/user_data.py:92-100 | Splitting the user block on newlines gives back the command list, four lines per user, when no username or password holds a newline. |
| UserData.UserSetupCommandsSingleLine | aws_ec2/ec2_utils/user_data.py:94-99 | No user command spans two lines when no credential holds a newline. |
| UserData.UserChecks | aws_ec2/ec2_utils/user_data.py:121-129 | Six lines per user, in input order, each block checking `id "<username>"`. Only `username` is read, and a record without it raises KeyError. |
| UserData.VerificationCommands | aws_ec2/ec2_utils/user_data.py:112-131 | The verification list is the seven-line `pawsey` check, then the users header, then one six-line `if id "<username>"` block per user, in input order. It fails exactly when a record lacks `username`. |
| UserData.GenerateVerificationCommands | aws_ec2/ec2_utils/user_data.py:112-131 | The verification block is produced exactly when every record has a `username`, because `password` is never read. |
| UserData.UsernameList | aws_ec2/ec2_utils/user_data.py:160 | The usernames are taken in input order, one per record, and a record without `username` raises KeyError. |
| UserData.Usernames | aws_ec2/ec2_utils/user_data.py:160 | The `usernames` value exists exactly when every record has a `username`. |
| UserData.UsernamesWordSplit | aws_ec2/ec2_utils/user_data.py:160 | Splitting the `usernames` value on single spaces gives back the usernames in order when none contains a space. |
| UserData.UsernamesOfTwo | aws_ec2/ec2_utils/user_data.py:160 | Two users give `user1 user2`: the names separated by a single space. |
| UserData.SubstituteText | aws_ec2/ec2_utils/user_data.py:156-162 | Template text without `$` is copied to the output unchanged. |
| UserData.SubstituteDollar | aws_ec2/ec2_utils/user_data.py:48 | `$$` renders as a single literal `$`, and scanning resumes after it. |
| UserData.SubstitutePlaceholder | aws_ec2/ec2_utils/user_data.py:156-162 | `$name`, ended by a character that cannot continue a name, is replaced by its value, and the value is not scanned again. |
| UserData.SubstitutePieces | aws_ec2/ec2_utils/user_data.py:156-162 | For a well-formed template with every placeholder bound, scanning its raw text gives exactly the piece-by-piece rendering. |
| UserData.TemplateRendering | aws_ec2/ec2_utils/user_data.py:11-59 | Filling the template with the five values gives the template's literal sections alternating with the values, in template order, with `$$` rendered as `$`. |
| UserData.GenerateFullScript | aws_ec2/ec2_utils/user_data.py:155-172 | A script is returned exactly when every user record has both keys. Otherwise the KeyError of the first incomplete record escapes, and no partial script is returned. |
| UserData.FullScriptFill | aws_ec2/ec2_utils/user_data.py:155-164 | With complete records, the script is the template filled with the admin block, the URL, the user block, the usernames and the verification block. |
| UserData.FullScriptLayout | aws_ec2/ec2_utils/user_data.py:156-162 | With complete records, the script is the template text with the five generated values placed verbatim at their placeholders, in template order. |
| UserData.ScriptStartsWithShebang | aws_ec2/ec2_utils/user_data.py:11 | Any rendering of the template begins with `#!/bin/bash`. |
| UserData.ScriptContainsAdmin | aws_ec2/ec2_utils/user_data.py:24 | Any rendering contains the admin block verbatim. |
| UserData.ScriptContainsUrl | aws_ec2/ec2_utils/user_data.py:27 | Any rendering contains the requirements URL verbatim. |
| UserData.ScriptContainsUserSetup | aws_ec2/ec2_utils/user_data.py:44 | Any rendering contains the user block verbatim. |
| UserData.ScriptContainsVerification | aws_ec2/ec2_utils/user_data.py:56 | Any rendering contains the verification block verbatim. |
| UserData.ScriptContainsLoop | aws_ec2/ec2_utils/user_data.py:47 | Any rendering contains `for username in <usernames>; do`, with the usernames value in place. |
| UserData.ScriptContainsEscape | aws_ec2/ec2_utils/user_data.py:48 | Any rendering contains `sudo deluser $username`: the escaped `$$` becomes the shell variable. |
| UserData.ScriptSetsAdminPassword | aws_ec2/ec2_utils/user_data.py:157 | A rendering whose admin block was generated for a password contains `pawsey:<password>`. |
| TemplateSource.TemplateWellFormed | aws_ec2/ec2_utils/user_data.py:11-59 | The template text scans back into its pieces: its literal text holds no `$` other than the `$$` escape, and each of the five placeholder names is an identifier followed by a character that ends it. |
| TemplateSource.SubstituteTemplate | aws_ec2/ec2_utils/user_data.py:156-162 | Substituting the five values into the template text succeeds and gives the concatenation of the script's parts. |
| TemplateSource.FillIsSubstitution | aws_ec2/ec2_utils/user_data.py:156-162 | PEP 292 substitution into the template text agrees with filling the template's pieces. |
| TemplateSource.FullScriptIsSubstitution | aws_ec2/ec2_utils/user_data.py:155-164 | With complete records, `generate_full_script` is PEP 292 substitution of its five generated values, under their placeholder names, into the template text. |
| RenderedScript.FullScriptShebang | aws_ec2/ec2_utils/user_data.py:11-59 | Every script generated for complete records starts with `#!/bin/bash`. |
| RenderedScript.FullScriptEscape | aws_ec2/ec2_utils/user_data.py:47-49 | The script's sudo-removal loop body reads the shell variable `$username`. |
| RenderedScript.FullScriptRemovalLoop | aws_ec2/ec2_utils/user_data.py:47 | The script contains the sudo-removal loop header `for username in <usernames>; do`, with the batch's usernames joined by single spaces. |
| RenderedScript.FullScriptAdminPassword | aws_ec2/ec2_utils/user_data.py:157 | The script sets the admin password it was given for `pawsey`. |
| RenderedScript.FullScriptRequirementsUrl | aws_ec2/ec2_utils/user_data.py:158 | The script passes the requirements URL to the TLJH installer. |
| RenderedScript.UserSetupSetsPassword | aws_ec2/ec2_utils/user_data.py:96 | The user block sets every user's password with `echo '<username>:<password>' \| sudo chpasswd`. |
| RenderedScript.VerificationChecksUser | aws_ec2/ec2_utils/user_data.py:121-129 | The verification block checks `id "<username>"` for every user. |
| RenderedScript.FullScriptUserPassword | aws_ec2/ec2_utils/user_data.py:159 | The script sets every user's password. |
| RenderedScript.FullScriptUserCheck | aws_ec2/ec2_utils/user_data.py:161 | The script checks that every user exists. |
| Security.FirstNamed | aws_ec2/ec2_utils/security.py:27-30 | Finds the first listed group whose name equals the requested name exactly, or reports that none does. |
| Security.CatchClientError | aws_ec2/ec2_utils/security.py:40-42 | A ClientError becomes `None`, and any other exception propagates. |
| Security.CreateOrGetSecurityGroup | aws_ec2/ec2_utils/security.py:11-42 | A group with the exact name gives its id and no create request. Otherwise exactly one group is created with the given name and description, and its id is returned. A ClientError while listing or creating gives `None`, and other exceptions propagate. |
| Security.UpsertIdempotent | aws_ec2/ec2_utils/security.py:26-30 | Once the group exists, another call returns the same id and creates nothing. |
| Security.AuthorizeIngress | aws_ec2/ec2_utils/security.py:59-78 | The result is True on success, True when the ClientError text contains `InvalidPermission.Duplicate`, and False for any other ClientError. Other exceptions propagate. |
| Security.Attempts | aws_ec2/ec2_utils/security.py:96-99 | `all(...)` attempts at least one rule when there are any, and never more than there are. |
| Security.AttemptsStopAtFirstRefusal | aws_ec2/ec2_utils/security.py:96-99 | Every rule before the last attempted one was accepted, and the run stops early only at a rule that was not accepted. |
| Security.RunRules | aws_ec2/ec2_utils/security.py:96-99 | The attempted rules are a prefix of the rule list, in order. |
| Security.RunRulesLength | aws_ec2/ec2_utils/security.py:96-99 | The number of rules attempted is the reference count: up to and including the first refusal. |
| Security.RunRulesAllAccepted | aws_ec2/ec2_utils/security.py:96-99 | `all(...)` is True exactly when every rule is accepted. |
| Security.RunRulesLastVerdict | aws_ec2/ec2_utils/security.py:96-99 | The verdict is that of the last attempted rule: its False or its exception, or True when every rule was accepted. |
| Security.RunRulesAttempts | aws_ec2/ec2_utils/security.py:96-99 | The three facts about a short-circuiting run, together. |
| Security.SetupJupyterSecurityRules | aws_ec2/ec2_utils/security.py:90-99 | The rules attempted are a non-empty prefix of tcp 22/22, 80/80 and 443/443 from 0.0.0.0/0, in that order. |
| Security.SetupJupyterSecurityRulesVerdict | aws_ec2/ec2_utils/security.py:90-99 | The result is True exactly when all three rules are accepted, and then all three were attempted. A refused SSH rule stops the run before the HTTP and HTTPS rules are tried. |
| Config.IngressRulesAgree | aws_ec2/ec2_utils/config.py:23-46 | The configured ingress rules are exactly three tcp rules, 22/22, 80/80 and 443/443 from 0.0.0.0/0, in the order the security rules open them. |
| Config.DefaultTags | aws_ec2/ec2_utils/config.py:80-85 | The default tags are `Environment`, `Project` and `ManagedBy`. `Environment` is `ENVIRONMENT` when that is set (even if empty) and `development` otherwise. |
| Config.Set | aws_ec2/ec2_utils/config.py:116 | `setattr` stores the raw string in that one attribute and changes nothing else. |
| Config.ApplyOverrides | aws_ec2/ec2_utils/config.py:114-116 | The override loop never touches the ingress rules, the tags, the group description or the installation wait time. |
| Config.ApplyOverridesField | aws_ec2/ec2_utils/config.py:114-116 | A field changes only through its own entry: to the variable's value when that is set and non-empty, and otherwise not at all. |
| Config.EnvMapIndex | aws_ec2/ec2_utils/config.py:101-112 | Every overridable field has exactly one entry in the variable map, under its own variable. |
| Config.LoadConfig | aws_ec2/ec2_utils/config.py:89-97 | The built configuration has the three ingress rules, the group description, an installation wait of 180 seconds, and the default tags. |
| Config.LoadConfigField | aws_ec2/ec2_utils/config.py:99-116 | Each overridable field holds its variable's raw value when the variable is set and non-empty, and its default otherwise. Unset or empty variables keep the defaults. |
| Config.LoadConfigDefaults | aws_ec2/ec2_utils/config.py:9-68 | With no mapped variable set to a non-empty value, the settings are the defaults: `ap-southeast-2`, the AMI, `t3.micro`, `aws_00`, `TLJH-SG`, the requirements URL, `pawsey`, 2 users per instance, `DEBUG` and `logs`. |
| Config.DefaultUsersPerInstance | aws_ec2/ec2_utils/config.py:53 | The default is the integer 2, overridden by `JUPYTER_USERS_PER_INSTANCE`. |
| Config.UsersPerInstanceOverride | aws_ec2/ec2_utils/config.py:109-116 | A non-empty `JUPYTER_USERS_PER_INSTANCE` is stored as the raw string (`'3'`, not 3), and otherwise the integer 2 stays. |
| Config.InstanceTags | aws_ec2/ec2_utils/config.py:118-126 | The tags are the default tags plus `Service=JupyterHub` and `CreatedAt=${timestamp}`, and the default tags themselves are left unchanged. |
| InstanceManager.CreateInstances | aws_ec2/ec2_utils/instance_manager.py:14-68 | There is one request per configuration, in order. Each uses MinCount = MaxCount = 1, the given image, type and key, the configuration's user data, the single group id, and the tag `TLJH-Instance-<i>-<timestamp>` counting from 1. On success there is one triple per configuration. |
| InstanceManager.CreateFrom | aws_ec2/ec2_utils/instance_manager.py:35-66 | The loop from a given 1-based position issues requests in configuration order, and a successful run has one request and one triple per configuration. |
| InstanceManager.CreateFromSucceeds | aws_ec2/ec2_utils/instance_manager.py:35-68 | The loop returns exactly when every launch returns an instance. |
| InstanceManager.CreateFromFails | aws_ec2/ec2_utils/instance_manager.py:64-66 | A failed run stops at the first failing launch: every earlier launch succeeded, the failing request is the last one issued, and its exception (or IndexError for an empty response) is re-raised. Nothing is cleaned up. |
| InstanceManager.CreateFromTriples | aws_ec2/ec2_utils/instance_manager.py:54-60 | On success the k-th triple is the first instance of the k-th launch, with the k-th configuration's users and admin credentials unchanged. |
| InstanceManager.NameTagInjective | aws_ec2/ec2_utils/instance_manager.py:51 | Distinct positions get distinct `Name` tags under one timestamp. |
| InstanceManager.CreateInstancesDistinctTags | aws_ec2/ec2_utils/instance_manager.py:12-51 | The requests of one call carry pairwise distinct `Name` tags, all sharing the timestamp fixed when the manager was built. |
| InstanceManager.Trunc | aws_ec2/ec2_utils/instance_manager.py:91 | Python's `int(x)` truncates toward zero. |
| InstanceManager.WaitFrom | aws_ec2/ec2_utils/instance_manager.py:85-93 | Each instance waited on had a positive remaining time and was waited on with Delay 5 and MaxAttempts `int(remaining/5)`. |
| InstanceManager.WaitFromVerdict | aws_ec2/ec2_utils/instance_manager.py:85-105 | The wait returns True exactly when every instance is reached in time and runs. The 180-second sleep happens exactly then. |
| InstanceManager.WaitFromStops | aws_ec2/ec2_utils/instance_manager.py:86-88 | Instances are visited in order, and none after the first one that times out or fails. |
| InstanceManager.WaitForInstances | aws_ec2/ec2_utils/instance_manager.py:70-105 | It never raises. It returns True exactly when every instance is reached with time left and becomes running, then sleeps 180 seconds once. Each waiter uses Delay 5 and `int(remaining/5)` attempts. |
| InstanceManager.WaiterAttemptsFit | aws_ec2/ec2_utils/instance_manager.py:90-92 | `int(remaining/5)` attempts of 5 seconds fit in the remaining time and one more would not. Under 5 seconds left gives zero attempts. |
| Orchestrator.Batches | aws_ec2/ec2_utils/main.py:54-55 | Every batch is non-empty and holds at most k users, and every batch but the last holds exactly k. |
| Orchestrator.BatchesFlatten | aws_ec2/ec2_utils/main.py:54-55 | Concatenated, the batches give back the credentials in order. |
| Orchestrator.BatchesCount | aws_ec2/ec2_utils/main.py:54-55 | There are ceil(n/k) batches, and none for no credentials. |
| Orchestrator.BatchesSlice | aws_ec2/ec2_utils/main.py:54-55 | The i-th batch is `credentials[i*k:(i+1)*k]`. |
| Orchestrator.BatchesFor | aws_ec2/ec2_utils/main.py:54-55 | A positive step gives exactly the consecutive slices of that size, which concatenate back to the credentials. A negative step gives no batch. Zero raises ValueError with `range()`'s message, and a string (an environment override) raises TypeError with Python's message. |
| Orchestrator.LogUsernames | aws_ec2/ec2_utils/main.py:58-59 | Logging the batch reads every user's `username` and raises KeyError for a record without one. |
| Orchestrator.BatchConfig | aws_ec2/ec2_utils/main.py:57-84 | A batch's configuration holds the script rendered from its users and its own fresh password, the users, and `pawsey` with that password. Any failure propagates. |
| Orchestrator.BatchConfigRendered | aws_ec2/ec2_utils/main.py:63-75 | With the real generator, a batch is configured exactly when all its credentials are complete. |
| Orchestrator.ConfigsFromSucceeds | aws_ec2/ec2_utils/main.py:54-84 | The configuration loop succeeds exactly when every batch can be configured. |
| Orchestrator.ConfigsFromAt | aws_ec2/ec2_utils/main.py:54-84 | On success, entry j is the configuration of batch j. |
| Orchestrator.BuildConfigsContents | aws_ec2/ec2_utils/main.py:61-84 | Configuration j carries the script rendered for batch j's users with its own admin password, those users, and that password under `pawsey`. |
| Orchestrator.AdminPasswordsDistinct | aws_ec2/ec2_utils/main.py:61 | Given distinct tokens, every instance gets its own admin password. |
| Orchestrator.InstanceConfigs | aws_ec2/ec2_utils/main.py:53-84 | The user-data stage succeeds exactly when the step is a non-zero integer and, for a positive step, every credential is complete. It then yields one configuration per batch. |
| Orchestrator.InstanceConfigsAt | aws_ec2/ec2_utils/main.py:53-84 | Configuration k holds the script rendered for the k-th slice with the k-th token, that slice, and the token as the `pawsey` password. |
| Orchestrator.CreateEc2Instances | aws_ec2/ec2_utils/main.py:22-104 | Stages run in order: security group, rules, user data, creation, wait. A run that returns instances went through all five. |
| Orchestrator.PipelineStages | aws_ec2/ec2_utils/main.py:40-84 | A falsy group id stops the run before the rules. Failed rules stop it before any user data is generated. Unusable credentials stop it before any instance is created. |
| Orchestrator.PipelineSucceeds | aws_ec2/ec2_utils/main.py:35-104 | Instances are returned exactly when the group is ready, the rules are open, the credentials are usable, every launch returned an instance and every instance became ready. Otherwise the result is `None`. |
| Orchestrator.PipelineCount | aws_ec2/ec2_utils/main.py:86-100 | On success there is one instance and one configuration per batch. |
| Orchestrator.PipelineShape | aws_ec2/ec2_utils/main.py:86-100 | On success the result is exactly the list `create_instances` returned for the built configurations under the group's id. |
| Orchestrator.PipelineTriple | aws_ec2/ec2_utils/main.py:53-100 | On success the k-th triple is the first instance of the k-th launch, the k-th slice of the credentials, and `pawsey` with the k-th token. The k-th user data was rendered from that slice and password. |
| LambdaHandlers.FirstState | aws_ec2/lamdba_functions/stop_instance.py:20 | The state is that of the first reservation's first instance, and an empty list at either level raises IndexError. |
| LambdaHandlers.DescribedState | aws_ec2/lamdba_functions/stop_instance.py:13-20 | A missing `instance_id` raises KeyError before any call. A failing or empty describe raises too. |
| LambdaHandlers.StopHandler | aws_ec2/lamdba_functions/stop_instance.py:12-40 | `stop_instances` is called exactly when the described state is `running`. Every call targets the event's instance id. Every normal return has status 200 and a body naming the instance: `Successfully initiated shutdown for instance <id>` after a stop, `Instance <id> is already in state: <state>` otherwise. Every exception is re-raised. |
| LambdaHandlers.TerminateHandler | aws_ec2/lamdba_functions/terminate_instance.py:12-40 | `terminate_instances` is called exactly when the described state is not `terminated`. Every normal return has status 200 and a body naming the instance: `Successfully initiated termination for instance <id>` after a termination, `Instance <id> is already terminated` otherwise. Every exception is re-raised. |
| LambdaHandlers.StopIdempotent | aws_ec2/lamdba_functions/stop_instance.py:31-36 | On an instance that is not running, the handler only describes it and answers 200 with "Instance <id> is already in state: <state>". |
| LambdaHandlers.TerminateIdempotent | aws_ec2/lamdba_functions/terminate_instance.py:31-36 | On a terminated instance, the handler only describes it and answers 200 with "Instance <id> is already terminated". |
| LambdaHandlers.StopBodiesDistinct | aws_ec2/lamdba_functions/stop_instance.py:27-36 | A shutdown body is never an already-in-state body. |
| LambdaHandlers.TerminateBodiesDistinct | aws_ec2/lamdba_functions/terminate_instance.py:27-36 | A termination body is never an already-terminated body. |
| LambdaHandlers.ShutdownBodyInjective | aws_ec2/lamdba_functions/stop_instance.py:29 | The shutdown body determines the instance id. |
| LambdaHandlers.TerminationBodyInjective | aws_ec2/lamdba_functions/terminate_instance.py:29 | The termination body determines the instance id. |
| Email.CredentialLines | aws_ec2/services/email_service.py:12-15 | One `Username: <u>, Password: <p>` line per credential, in input order. |
| Email.InitialConfirmation | aws_ec2/services/email_service.py:11-34 | The subject is "Booking Confirmation" and the recipients are exactly [email]. The body holds the email, the booking time and the credential lines joined by newlines. |
| Email.ConfirmationListsCredential | aws_ec2/services/email_service.py:17-26 | Every credential's line, with its username and password, is in the confirmation. |
| Email.CredentialBlockSplits | aws_ec2/services/email_service.py:22 | The credential block splits back on newlines into the lines, one per credential in order, when no username or password holds a newline. |
| Email.UserLines | aws_ec2/services/email_service.py:43 | There is one `- <username>` line per user, in order, and a user without `username` raises KeyError. |
| Email.InstanceBlock | aws_ec2/services/email_service.py:43-50 | A block starts with `Instance URL: http://<public_dns>` and holds the `- <username>` lines of its users joined by newlines, in user order. It fails exactly when a user lacks a username. |
| Email.InstanceBlocks | aws_ec2/services/email_service.py:41-50 | There is one block per instance, in order, and the first failing entry raises. |
| Email.InstanceDetails | aws_ec2/services/email_service.py:37-72 | The subject is "JupyterHub Access Information" and the recipients are exactly [email]. The body holds the instance blocks joined by newlines, in instance order. Composition fails exactly when some user lacks a username. |
| Email.DetailsListInstance | aws_ec2/services/email_service.py:52-64 | Each instance's block, starting with its URL, is in the message. |
| Email.BlockListsUser | aws_ec2/services/email_service.py:43-50 | A block lists each of its users as `- <username>`, and the admin username and password. |
| Email.UserLinesSplit | aws_ec2/services/email_service.py:43 | The user list splits back on newlines into one `- <username>` line per user, in order. |
| BookingService.CreateUserCredentials | aws_ec2/services/booking_service.py:16-26 | Exactly `number_of_users` credentials (none for a negative count) are returned, each linked to the booking, the i-th made of the i-th username token and the i-th password token. A failing `bulk_create` propagates. |
| BookingService.Generate | aws_ec2/services/booking_service.py:17-24 | The i-th credential has the i-th 8-byte token as username and the i-th 16-byte token as password. |
| BookingService.CredentialsDistinct | aws_ec2/services/booking_service.py:20 | Given distinct username tokens, usernames are pairwise distinct, as the unique constraint requires. |
| BookingService.CredentialDicts | aws_ec2/services/booking_service.py:36-39 | Credentials are forwarded as `{username, password}` dicts in the same order. |
| BookingService.RecordFrom | aws_ec2/services/booking_service.py:50-57 | The loop writes one record per result tuple, in order, with the instance's id and DNS name, and passes the users and admin credentials through. A failed write leaves exactly the records before it: every earlier insert succeeded, and the failing insert's exception is the one raised. |
| BookingService.RecordFromSucceeds | aws_ec2/services/booking_service.py:50-57 | The writes succeed exactly when every insert does. |
| BookingService.CreateInstances | aws_ec2/services/booking_service.py:29-66 | A `None` or empty provisioning result, or a failing write, returns `None` and leaves the flag alone. A successful run sets `ec2_instances_created` and returns one entry per record. |
| BookingService.CreateInstancesRecords | aws_ec2/services/booking_service.py:42-62 | On success the k-th record and info come from the k-th provisioned instance, under the booking, with users and admin passed through. |
| BookingService.CreateInstancesSucceeds | aws_ec2/services/booking_service.py:42-66 | Instance info is returned exactly when provisioning returned a non-empty list and every record was written. A `None` or empty result writes no record. |
| BookingService.CreateInstancesFailedWrite | aws_ec2/services/booking_service.py:50-66 | When provisioning returned instances but the run returns `None`, the records kept are exactly those before the first failing insert: one per instance up to it, each with that instance's id and DNS name. |
| BookingService.DictsUsable | aws_ec2/services/booking_service.py:36-45 | Generated credentials always carry both keys, so user-data generation fails only on the configured users per instance. |
| BookingService.ProvisioningBatches | aws_ec2/services/booking_service.py:42-45 | With the default of 2 users per instance, n credentials ask for ceil(n/2) instances. A string override makes every run fail before any instance is created. |
| BookingService.ScheduleInstanceCreation | aws_ec2/services/booking_service.py:69-97 | Enqueues `args=[booking.id]` with `eta=booking_time` exactly when `booking_time - now > 0`. It returns True exactly when that enqueue succeeds, and False otherwise, including when the queue raises. |
| Tasks.MailDetails | aws_ec2/tasks.py:32 | The details mail is composed and sent, and the step succeeds exactly when both do. |
| Tasks.CreateScheduledInstances | aws_ec2/tasks.py:12-39 | An unknown booking ends in a swallowed DoesNotExist with no action. Provisioning is called exactly when the booking is found, its flag is clear and it has credentials. Every early return does nothing: no event and no mail. |
| Tasks.TaskOutcome | aws_ec2/tasks.py:29-39 | After provisioning, the details are mailed to the booking's address with that exact result when it is truthy. Otherwise nothing is mailed: the only events are the provisioning call and the attempted failure notice, whose AttributeError is swallowed. The flag is set exactly when provisioning succeeded. |
| Tasks.TaskIdempotent | aws_ec2/tasks.py:19-21 | Run again after a successful run, the task neither provisions nor mails. |
| Tasks.TaskNeverSetsFlagItself | aws_ec2/tasks.py:16-39 | The flag ends up set only if it was already set or provisioning succeeded. |
| Forms.MakeAware | aws_ec2/forms.py:20-21 | Making a naive time aware keeps its wall-clock reading and fixes the instant by the local offset. |
| Forms.CleanBookingTime | aws_ec2/forms.py:16-27 | A time at or before now is rejected with a ValidationError "Booking time must be in the future.", and a strictly later time is returned, aware. |
| Forms.NumberError | aws_ec2/forms.py:14 | The number of users is valid exactly when it is an integer in 1..50. A missing value is required, an unparsable one is invalid, and one outside the range names the bound it breaks: the minimum 1 or the maximum 50. |
| Forms.ErrorsKeys | aws_ec2/forms.py:8-14 | A field is reported exactly when it has an error. |
| Forms.Validate | aws_ec2/forms.py:8-27 | The form is valid exactly when it has no errors. That happens exactly when the email parses, the booking time parses and lies in the future, and the number is in 1..50. The cleaned values are then the submitted ones, with the time made aware. |
| Forms.EmptyFormErrors | aws_ec2/forms.py:8-14 | An empty submission has exactly three errors, all "required". |
| Forms.AcceptedTimeInFuture | aws_ec2/forms.py:24-27 | An accepted booking time is aware, keeps the submitted wall-clock reading, and lies strictly after now. |
| Forms.NumberBounds | aws_ec2/forms.py:14 | 1 and 50 are accepted, while 0 (below the minimum) and 51 (above the maximum) are rejected. |

## Left out

- The legacy module `aws_ec2/ec2_utils.py` and its callers (`signals.py`, the management commands) are superseded by the `ec2_utils` package and are not modelled.
- Shutdown scheduling (EventBridge rules, Lambda permissions) is not modelled. `instance_manager.py` defines none of it.
- `EmailService.send_creation_failure` is not defined in `email_service.py`. The call in `tasks.py` is modelled as an attempted notice followed by the AttributeError the task swallows.
- AWS, the Django ORM, `send_mail`, the task queue, `time.time`, `time.sleep` and the waiters are not modelled. Their answers are inputs.
- `secrets.token_hex` values are inputs. Their distinctness cannot be proved, so `Orchestrator.AdminPasswordsDistinct` and `BookingService.CredentialsDistinct` assume it.
- `datetime.now()` in the instance manager's constructor is a parameter: the timestamp string.
- `ec2.SecurityGroup(id)` is not modelled. The security rules run against the group the id names.
- The waiter's internal polling is not modelled. Each `wait_until_running` plus `reload` is one supplied outcome.
- Logging, the debug `print`s and the secret logging are side effects with no effect on results, and are not modelled.
- The runtime behaviour of the generated shell script is not modelled. This includes the TLJH install wait loop in the template. Only the script's text is modelled.
- `RenderedScript.FullScriptRemovalLoop` and `UserData.UsernamesWordSplit` are about the script's text only. That the shell's `for` loop visits exactly the usernames holds only for names with no blanks or shell metacharacters (`$`, quotes, glob characters), as the generated hex tokens are; the shell's word splitting and expansion are not modelled.
- `UserData.GenerateFullScript` does not model the debug output of the `except` branch, only its effect. The branch ends in a bare `raise`, and its output rebuilds the user block, which raises the same KeyError first, so that KeyError escapes either way.
- `Forms.Validate` does not model Django's field parsing: email syntax, the `%Y-%m-%dT%H:%M` format and integer syntax. Each field arrives already classified as missing, invalid or a value.
- `Forms.MakeAware` does not model the time zone database. The current zone's UTC offset at that wall time is a parameter, so daylight-saving gaps and folds are not modelled.
- `BookingService.ScheduleInstanceCreation` does not model `timezone.localtime`, which does not change the instant. Times are instants in seconds.
- `BookingService.ScheduleInstanceCreation` uses exact real arithmetic for `(booking_time - now).total_seconds()`, not a double. The `delay > 0` test is not modelled for delays small enough to round to zero.
- `InstanceManager.WaitFrom` uses exact real arithmetic for `timeout - (time.time() - start_time)`, not IEEE-754 doubles. Rounding at the `remaining <= 0` test is not modelled.
- `InstanceManager.WaiterAttemptsFit` states the attempt count for an exact real `remaining`. The rounding of the double division `remaining / 5` before `int()` is not modelled, so a value just below a multiple of 5 may give one attempt more in the program.
- `BookingService.CreateInstances` does not model a failing `booking.save()` after the flag is set. The in-memory flag would stay set while `None` is returned.
- `Email.InitialConfirmation` takes `str(booking_time)` as text, because Python's date formatting is not modelled.
- `UserCredential.save` password hashing (`make_password`) is not modelled. `bulk_create` does not call `save`, and the e-mails use the generated values.
- The configuration fields nothing in the core reads (`HUB_PORT`, `SSL_ENABLED`, `USER_ENV_TYPE`, `INSTALL_EXTENSIONS`, `LOG_FORMAT` and the other logging switches) are not modelled.
- Views, URLs, settings, Celery and gunicorn configuration, and the logging setup are not modelled. They are plumbing around the core.
