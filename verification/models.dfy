/** The Django records the services read and write: a booking, the user
    credentials generated for it, and the EC2 instances created for it. */
module Models {

  /** A booking. `bookingTime` is the booked instant, in seconds since the
      epoch; `instancesCreated` is the `ec2_instances_created` flag. */
  datatype Booking = Booking(id: nat, email: string, bookingTime: real, numberOfUsers: int, instancesCreated: bool)

  /** A JupyterHub user generated for a booking. */
  datatype UserCredential = UserCredential(bookingId: nat, username: string, password: string)

  /** An EC2 instance recorded against a booking. */
  datatype EC2InstanceRecord = EC2InstanceRecord(bookingId: nat, instanceId: string, publicDns: string)
}
