/** `create_scheduled_instances(booking_id)`: the Celery task run at the
    booked time. It provisions the booking's instances once, mails the
    access details on success and a failure notice otherwise, and swallows
    every exception.

    The booking lookup, the stored credentials, the cloud, the database
    writes and the mail transport are inputs. */
module Tasks {
  import opened Common
  import Models
  import Config
  import Orchestrator
  import Email
  import BookingService

  /** What the task does that can be seen from outside. */
  datatype TaskEvent =
    | ProvisionCalled(bookingId: nat)           // BookingService.create_instances
    | DetailsMailed(mail: Email.Mail)           // EmailService.send_instance_details
    | FailureNoticeAttempted(email: string)     // EmailService.send_creation_failure

  /** The events in order, the booking as it stands afterwards (when it was
      found), and the exception the task caught, if any. */
  datatype TaskRun = TaskRun(events: seq<TaskEvent>, booking: Option<Models.Booking>, swallowed: Option<Exception>)

  /** `EmailService` defines no `send_creation_failure`, so calling it raises. */
  const MissingFailureNotice := AttributeError("send_creation_failure")

  /** Everything the task's collaborators answer during one run. */
  datatype World = World(
    lookup: Option<Models.Booking>,              // Booking.objects.get(id=...)
    credentials: seq<Models.UserCredential>,     // booking.user_credentials.all()
    config: Config.Config,
    cloud: Orchestrator.Cloud,
    inserts: nat -> Outcome<()>,                 // EC2Instance.objects.create, per call
    sender: string,                              // settings.EMAIL_HOST_USER
    mailer: Outcome<()>)                         // send_mail

  /** The details mail step: compose, then send; either may raise. */
  function MailDetails(email: string, infos: seq<Email.InstanceInfo>, sender: string, mailer: Outcome<()>)
    : (r: (seq<TaskEvent>, Option<Exception>))
    ensures Email.InstanceDetails(email, infos, sender).Returned? ==>
      r.0 == [DetailsMailed(Email.InstanceDetails(email, infos, sender).value)]
    ensures r.1.None? <==> Email.InstanceDetails(email, infos, sender).Returned? && mailer.Returned?
  {
    match Email.InstanceDetails(email, infos, sender)
    case Raised(e) => ([], Some(e))
    case Returned(mail) => ([DetailsMailed(mail)], if mailer.Raised? then Some(mailer.error) else None)
  }

  /** `create_scheduled_instances(booking_id)`. */
  function CreateScheduledInstances(bookingId: nat, world: World): (r: TaskRun)
    ensures world.lookup.None? ==> r == TaskRun([], None, Some(DoesNotExist))
    ensures ProvisionCalled(bookingId) in r.events
            <==> world.lookup.Some? && !world.lookup.value.instancesCreated && |world.credentials| > 0
    ensures ProvisionCalled(bookingId) !in r.events ==> r.events == []
    ensures world.lookup.Some? ==> r.booking.Some? && r.booking.value.id == world.lookup.value.id
  {
    match world.lookup
    case None => TaskRun([], None, Some(DoesNotExist))
    case Some(booking) =>
      if booking.instancesCreated || |world.credentials| == 0 then TaskRun([], Some(booking), None)
      else
        var run := BookingService.CreateInstances(booking, world.credentials, world.config, world.cloud, world.inserts);
        match run.result
        case Some(infos) =>
          var mailed := MailDetails(booking.email, infos, world.sender, world.mailer);
          TaskRun([ProvisionCalled(bookingId)] + mailed.0, Some(run.booking), mailed.1)
        case None =>
          TaskRun([ProvisionCalled(bookingId), FailureNoticeAttempted(booking.email)], Some(run.booking),
                  Some(MissingFailureNotice))
  }

  /** The provisioning the task hands to the booking service. */
  function Provision(world: World): BookingService.ProvisionRun
    requires world.lookup.Some?
  {
    BookingService.CreateInstances(world.lookup.value, world.credentials, world.config, world.cloud, world.inserts)
  }

  /** Once provisioning was asked for, the details are mailed exactly when
      it returned instance info, with that info to the booking's address;
      otherwise the failure notice is attempted and its AttributeError
      swallowed. The flag afterwards is what the booking service left. */
  lemma TaskOutcome(bookingId: nat, world: World)
    requires world.lookup.Some? && !world.lookup.value.instancesCreated && |world.credentials| > 0
    ensures var r := CreateScheduledInstances(bookingId, world);
            var booking := world.lookup.value;
            && r.booking == Some(Provision(world).booking)
            && (Provision(world).result.Some? && Email.InstanceDetails(booking.email, Provision(world).result.value, world.sender).Returned?
                ==> DetailsMailed(Email.InstanceDetails(booking.email, Provision(world).result.value, world.sender).value) in r.events)
            && (FailureNoticeAttempted(booking.email) in r.events <==> Provision(world).result.None?)
            && (Provision(world).result.None? ==> r.swallowed == Some(MissingFailureNotice))
            && (Provision(world).result.None? ==> r.events == [ProvisionCalled(bookingId), FailureNoticeAttempted(booking.email)])
            && (r.booking.value.instancesCreated <==> Provision(world).result.Some?)
  {
    var r := CreateScheduledInstances(bookingId, world);
    var booking := world.lookup.value;
    if Provision(world).result.Some? {
      var mailed := MailDetails(booking.email, Provision(world).result.value, world.sender, world.mailer);
      assert r.events == [ProvisionCalled(bookingId)] + mailed.0;
      assert forall e :: e in mailed.0 ==> e.DetailsMailed?;
    }
  }

  /** Idempotence: run again on the booking a successful run left behind,
      the task neither provisions nor mails. */
  lemma TaskIdempotent(bookingId: nat, world: World)
    requires world.lookup.Some? && !world.lookup.value.instancesCreated && |world.credentials| > 0
    requires CreateScheduledInstances(bookingId, world).booking.value.instancesCreated
    ensures var again := world.(lookup := CreateScheduledInstances(bookingId, world).booking);
            CreateScheduledInstances(bookingId, again) == TaskRun([], again.lookup, None)
  {
  }

  /** A found booking's flag is set only by a successful provisioning. */
  lemma TaskNeverSetsFlagItself(bookingId: nat, world: World)
    requires world.lookup.Some?
    ensures var r := CreateScheduledInstances(bookingId, world);
            r.booking.value.instancesCreated ==>
              world.lookup.value.instancesCreated || Provision(world).result.Some?
  {
  }
}
