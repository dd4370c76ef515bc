/** `BookingService`: generate a booking's users, provision instances for
    them and record the instances, and schedule the provisioning task.

    The database, `secrets.token_hex` and the task queue are inputs: the
    outcome of each write, the token values in call order, the current
    instant and the outcome of enqueueing. */
module BookingService {
  import opened Common
  import Models
  import Config
  import Orchestrator
  import Email

  // ---------------------------------------------------------------------
  // Credentials

  /** `create_user_credentials(booking, number_of_users)`: one credential
      per iteration of `range(number_of_users)` (none for a negative count),
      the `i`-th with the `i`-th `token_hex(8)` as username and the `i`-th
      `token_hex(16)` as password, all linked to the booking and written in
      one `bulk_create`, whose exception propagates. */
  function CreateUserCredentials(booking: Models.Booking, numberOfUsers: int, usernames: nat -> string,
                                 passwords: nat -> string, bulkCreate: Outcome<()>): (r: Outcome<seq<Models.UserCredential>>)
    ensures r.Returned? <==> bulkCreate.Returned?
    ensures r.Raised? ==> r.error == bulkCreate.error
    ensures r.Returned? ==> |r.value| == (if numberOfUsers > 0 then numberOfUsers else 0)
    ensures r.Returned? ==> forall i :: 0 <= i < |r.value| ==> r.value[i].bookingId == booking.id
    ensures r.Returned? ==> r.value == Generate(booking.id, if numberOfUsers > 0 then numberOfUsers else 0, usernames, passwords)
  {
    var count := if numberOfUsers > 0 then numberOfUsers else 0;
    var credentials := Generate(booking.id, count, usernames, passwords);
    match bulkCreate
    case Raised(e) => Raised(e)
    case Returned(_) => Returned(credentials)
  }

  /** The first `n` credentials of a booking. */
  function Generate(bookingId: nat, n: nat, usernames: nat -> string, passwords: nat -> string)
    : (r: seq<Models.UserCredential>)
    ensures |r| == n
    ensures forall i :: 0 <= i < n ==> r[i] == Models.UserCredential(bookingId, usernames(i), passwords(i))
  {
    if n == 0 then [] else Generate(bookingId, n - 1, usernames, passwords) + [Models.UserCredential(bookingId, usernames(n - 1), passwords(n - 1))]
  }

  /** Distinct username tokens give distinct usernames, as the model's
      unique constraint demands. */
  lemma CredentialsDistinct(booking: Models.Booking, numberOfUsers: int, usernames: nat -> string,
                            passwords: nat -> string, bulkCreate: Outcome<()>, i: nat, j: nat)
    requires forall a: nat, b: nat :: a != b ==> usernames(a) != usernames(b)
    requires CreateUserCredentials(booking, numberOfUsers, usernames, passwords, bulkCreate).Returned?
    requires i < j < |CreateUserCredentials(booking, numberOfUsers, usernames, passwords, bulkCreate).value|
    ensures CreateUserCredentials(booking, numberOfUsers, usernames, passwords, bulkCreate).value[i].username
            != CreateUserCredentials(booking, numberOfUsers, usernames, passwords, bulkCreate).value[j].username
  {
    var count := if numberOfUsers > 0 then numberOfUsers else 0;
    assert CreateUserCredentials(booking, numberOfUsers, usernames, passwords, bulkCreate).value
           == Generate(booking.id, count, usernames, passwords);
  }

  // ---------------------------------------------------------------------
  // Provisioning

  /** `{"username": cred.username, "password": cred.password}` per credential. */
  function CredentialDicts(credentials: seq<Models.UserCredential>): (r: seq<UserRecord>)
    ensures |r| == |credentials|
    ensures forall i :: 0 <= i < |r| ==> r[i] == UserRecord(Some(credentials[i].username), Some(credentials[i].password))
  {
    if |credentials| == 0 then []
    else [UserRecord(Some(credentials[0].username), Some(credentials[0].password))] + CredentialDicts(credentials[1..])
  }

  /** The records written, the booking as it stands afterwards, and the
      `(instance, users, pawsey_credentials)` list returned (`None` for the
      caught exception). */
  datatype ProvisionRun = ProvisionRun(records: seq<Models.EC2InstanceRecord>, booking: Models.Booking,
                                       result: Option<seq<Email.InstanceInfo>>)

  /** The record for one provisioned instance. */
  function RecordOf(bookingId: nat, p: Provisioned): Models.EC2InstanceRecord
  {
    Models.EC2InstanceRecord(bookingId, p.instance.id, p.instance.publicDns)
  }

  /** The loop writing one record per result from position `k` on; the
      first write that raises ends it, keeping the records already written. */
  function RecordFrom(bookingId: nat, results: seq<Provisioned>, k: nat, inserts: nat -> Outcome<()>)
    : (r: (seq<Models.EC2InstanceRecord>, Outcome<seq<Email.InstanceInfo>>))
    requires k <= |results|
    ensures |r.0| <= |results| - k
    ensures forall j :: 0 <= j < |r.0| ==> r.0[j] == RecordOf(bookingId, results[k + j])
    ensures r.1.Returned? ==> |r.0| == |results| - k && |r.1.value| == |results| - k
    ensures r.1.Returned? ==> forall j :: 0 <= j < |r.1.value| ==>
      r.1.value[j] == Email.InstanceInfo(r.0[j], results[k + j].users, results[k + j].admin)
    ensures r.1.Raised? ==> k + |r.0| < |results| && inserts(k + |r.0|) == Raised(r.1.error)
    ensures forall j :: k <= j < k + |r.0| ==> inserts(j).Returned?
    decreases |results| - k
  {
    if k == |results| then ([], Returned([]))
    else match inserts(k)
      case Raised(e) => ([], Raised(e))
      case Returned(_) =>
        var record := RecordOf(bookingId, results[k]);
        var rest := RecordFrom(bookingId, results, k + 1, inserts);
        ([record] + rest.0, match rest.1
                            case Raised(e) => Raised(e)
                            case Returned(infos) => Returned([Email.InstanceInfo(record, results[k].users, results[k].admin)] + infos))
  }

  /** The writes succeed exactly when every insert from `k` on does. */
  lemma {:induction false} RecordFromSucceeds(bookingId: nat, results: seq<Provisioned>, k: nat, inserts: nat -> Outcome<()>)
    requires k <= |results|
    ensures RecordFrom(bookingId, results, k, inserts).1.Returned?
            <==> forall j :: k <= j < |results| ==> inserts(j).Returned?
    decreases |results| - k
  {
    if k < |results| {
      RecordFromSucceeds(bookingId, results, k + 1, inserts);
    }
  }

  /** `create_instances(booking, credentials)`: provision with the configured
      users per instance; a `None` or empty result, or a failing write,
      leaves the flag alone and returns `None`; otherwise one record per
      instance, the flag set, and the instance info returned. */
  function CreateInstances(booking: Models.Booking, credentials: seq<Models.UserCredential>, config: Config.Config,
                           cloud: Orchestrator.Cloud, inserts: nat -> Outcome<()>): (r: ProvisionRun)
    ensures r.result.None? ==> r.booking == booking
    ensures r.result.Some? ==> r.booking == booking.(instancesCreated := true)
    ensures r.result.Some? ==> |r.result.value| == |r.records| > 0
  {
    var provisioned := Orchestrator.CreateEc2Instances(CredentialDicts(credentials), config.usersPerInstance, config, cloud).result;
    if provisioned.None? || |provisioned.value| == 0 then ProvisionRun([], booking, None)
    else
      var written := RecordFrom(booking.id, provisioned.value, 0, inserts);
      match written.1
      case Raised(_) => ProvisionRun(written.0, booking, None)
      case Returned(infos) => ProvisionRun(written.0, booking.(instancesCreated := true), Some(infos))
  }

  /** On success the `k`-th record and info come from the `k`-th provisioned
      instance: its id and DNS name under the booking, with the users and
      admin credentials passed through. The flag is set only then. */
  lemma CreateInstancesRecords(booking: Models.Booking, credentials: seq<Models.UserCredential>, config: Config.Config,
                               cloud: Orchestrator.Cloud, inserts: nat -> Outcome<()>, k: nat)
    requires CreateInstances(booking, credentials, config, cloud, inserts).result.Some?
    requires k < |CreateInstances(booking, credentials, config, cloud, inserts).records|
    ensures var provisioned := Orchestrator.CreateEc2Instances(CredentialDicts(credentials), config.usersPerInstance, config, cloud).result;
            var r := CreateInstances(booking, credentials, config, cloud, inserts);
            && provisioned.Some? && |provisioned.value| == |r.records|
            && r.records[k] == Models.EC2InstanceRecord(booking.id, provisioned.value[k].instance.id, provisioned.value[k].instance.publicDns)
            && r.result.value[k] == Email.InstanceInfo(r.records[k], provisioned.value[k].users, provisioned.value[k].admin)
  {
  }

  /** The run returns instance info exactly when provisioning returned a
      non-empty list and every record was written. */
  lemma CreateInstancesSucceeds(booking: Models.Booking, credentials: seq<Models.UserCredential>, config: Config.Config,
                                cloud: Orchestrator.Cloud, inserts: nat -> Outcome<()>)
    ensures var provisioned := Orchestrator.CreateEc2Instances(CredentialDicts(credentials), config.usersPerInstance, config, cloud).result;
            CreateInstances(booking, credentials, config, cloud, inserts).result.Some?
            <==> provisioned.Some? && |provisioned.value| > 0 && forall j :: 0 <= j < |provisioned.value| ==> inserts(j).Returned?
    ensures var provisioned := Orchestrator.CreateEc2Instances(CredentialDicts(credentials), config.usersPerInstance, config, cloud).result;
            provisioned.None? || |provisioned.value| == 0 ==> CreateInstances(booking, credentials, config, cloud, inserts).records == []
  {
    var provisioned := Orchestrator.CreateEc2Instances(CredentialDicts(credentials), config.usersPerInstance, config, cloud).result;
    if provisioned.Some? && |provisioned.value| > 0 {
      RecordFromSucceeds(booking.id, provisioned.value, 0, inserts);
    }
  }

  /** A failing write leaves exactly the records before it: one per
      instance up to the first insert that raised, and nothing after. */
  lemma CreateInstancesFailedWrite(booking: Models.Booking, credentials: seq<Models.UserCredential>, config: Config.Config,
                                   cloud: Orchestrator.Cloud, inserts: nat -> Outcome<()>)
    ensures var provisioned := Orchestrator.CreateEc2Instances(CredentialDicts(credentials), config.usersPerInstance, config, cloud).result;
            var r := CreateInstances(booking, credentials, config, cloud, inserts);
            r.result.None? && provisioned.Some? && |provisioned.value| > 0 ==>
              && |r.records| < |provisioned.value|
              && inserts(|r.records|).Raised?
              && (forall j :: 0 <= j < |r.records| ==> inserts(j).Returned?)
              && (forall j :: 0 <= j < |r.records| ==> r.records[j] == Models.EC2InstanceRecord(booking.id, provisioned.value[j].instance.id, provisioned.value[j].instance.publicDns))
  {
  }

  /** Generated credentials always carry both keys, so the user-data stage
      of provisioning fails only on the configured users per instance: a
      string override or zero. */
  lemma DictsUsable(credentials: seq<Models.UserCredential>, usersPerInstance: Config.Setting)
    ensures Orchestrator.CredentialsUsable(CredentialDicts(credentials), usersPerInstance)
            <==> usersPerInstance.IntSetting? && usersPerInstance.number != 0
  {
  }

  /** With the configured default of two users per instance, provisioning
      for `n > 0` credentials asks for `ceil(n / 2)` instances, and an
      overridden (string) setting makes every run fail before any instance
      is created. */
  lemma ProvisioningBatches(credentials: seq<Models.UserCredential>, config: Config.Config, cloud: Orchestrator.Cloud)
    ensures config.usersPerInstance == Config.IntSetting(2) && |credentials| > 0 ==>
      var n := Orchestrator.InstanceCount(CredentialDicts(credentials), config.usersPerInstance);
      (n - 1) * 2 < |credentials| <= n * 2
    ensures config.usersPerInstance.StrSetting? ==>
      |Orchestrator.CreateEc2Instances(CredentialDicts(credentials), config.usersPerInstance, config, cloud).stages| <= 3
  {
    Orchestrator.PipelineStages(CredentialDicts(credentials), config.usersPerInstance, config, cloud);
    if config.usersPerInstance == Config.IntSetting(2) && |credentials| > 0 {
      Orchestrator.BatchesCount(CredentialDicts(credentials), 2);
    }
  }

  // ---------------------------------------------------------------------
  // Scheduling

  /** An `apply_async(args=[booking.id], eta=booking.booking_time)` request. */
  datatype TaskRequest = TaskRequest(args: seq<nat>, eta: real)

  /** The requests made and the value returned. */
  datatype ScheduleRun = ScheduleRun(requests: seq<TaskRequest>, scheduled: bool)

  /** `schedule_instance_creation(booking)`: enqueue the provisioning task
      for the booked instant iff that instant is still ahead of `now`;
      an exception from the queue is caught and yields False. */
  function ScheduleInstanceCreation(booking: Models.Booking, now: real, enqueue: Outcome<()>): (r: ScheduleRun)
    ensures r.scheduled <==> booking.bookingTime - now > 0.0 && enqueue.Returned?
    ensures |r.requests| <= 1
    ensures |r.requests| == 1 <==> booking.bookingTime - now > 0.0
    ensures forall q :: q in r.requests ==> q == TaskRequest([booking.id], booking.bookingTime)
  {
    var delay := booking.bookingTime - now;
    if delay > 0.0 then
      var request := TaskRequest([booking.id], booking.bookingTime);
      ScheduleRun([request], enqueue.Returned?)
    else ScheduleRun([], false)
  }
}
