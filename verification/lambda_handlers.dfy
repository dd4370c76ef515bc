/** The two Lambda handlers behind the API Gateway: stop an instance that is
    running, terminate an instance that is not yet terminated.

    Each handler reads `event['instance_id']`, asks EC2 to describe the
    instance, and acts on the first reservation's first instance's state.
    What EC2 answers is an input: the describe response (as the state names
    of the instances of each reservation) and the outcome of the action
    call. Any exception is logged and re-raised. */
module LambdaHandlers {
  import opened Common

  /** The `instance_id` entry of the event, absent when the key is missing. */
  datatype Event = Event(instanceId: Option<string>)

  /** The EC2 client calls a handler makes, each on `InstanceIds=[id]`. */
  datatype Call = DescribeInstances(id: string) | StopInstances(id: string) | TerminateInstances(id: string)

  /** The `{'statusCode': ..., 'body': ...}` dict a handler returns. */
  datatype Response = Response(statusCode: int, body: string)

  /** The calls made, in order, and what the handler returned or raised. */
  datatype HandlerRun = HandlerRun(calls: seq<Call>, outcome: Outcome<Response>)

  const Running := "running"
  const Terminated := "terminated"

  /** `response['Reservations'][0]['Instances'][0]['State']['Name']`, where
      the response lists the state names of each reservation's instances;
      an empty list at either level raises IndexError. */
  function FirstState(reservations: seq<seq<string>>): (r: Outcome<string>)
    ensures r.Returned? <==> |reservations| > 0 && |reservations[0]| > 0
    ensures r.Returned? ==> r.value == reservations[0][0]
    ensures r.Raised? ==> r.error == IndexError
  {
    if |reservations| == 0 || |reservations[0]| == 0 then Raised(IndexError) else Returned(reservations[0][0])
  }

  /** The first word of both success bodies, kept as a literal of its own
      so that the verifier can read its characters (it does not look
      inside longer literals). */
  const Successfully := "Successfully"

  /** The text before the instance id in the stop handler's body. */
  const ShutdownPrefix := Successfully + " initiated shutdown for instance "

  /** The text before the instance id in the terminate handler's body. */
  const TerminationPrefix := Successfully + " initiated termination for instance "

  function ShutdownBody(id: string): string
  {
    ShutdownPrefix + id
  }

  function AlreadyInStateBody(id: string, state: string): string
  {
    "Instance " + id + " is already in state: " + state
  }

  function TerminationBody(id: string): string
  {
    TerminationPrefix + id
  }

  function AlreadyTerminatedBody(id: string): string
  {
    "Instance " + id + " is already terminated"
  }

  /** The state the handler acts on, or the exception that ends it before
      any action: a missing `instance_id` (no call at all), or a describe
      call that raises or lists no instance. */
  function DescribedState(event: Event, describe: Outcome<seq<seq<string>>>): (r: Outcome<string>)
    ensures r.Returned? <==> event.instanceId.Some? && describe.Returned? && FirstState(describe.value).Returned?
    ensures r.Returned? ==> r == FirstState(describe.value)
    ensures event.instanceId.None? ==> r == Raised(KeyError("instance_id"))
  {
    match event.instanceId
    case None => Raised(KeyError("instance_id"))
    case Some(_) =>
      var reservations :- describe;
      FirstState(reservations)
  }

  /** The calls before the action: none without an id, one describe otherwise. */
  function Preamble(event: Event): seq<Call>
  {
    if event.instanceId.Some? then [DescribeInstances(event.instanceId.value)] else []
  }

  /** `stop_instance.lambda_handler(event, context)`: stops the instance iff
      it is described as `running`; otherwise reports its state. */
  function StopHandler(event: Event, describe: Outcome<seq<seq<string>>>, stop: Outcome<()>): (r: HandlerRun)
    ensures event.instanceId.None? ==> r.calls == []
    ensures event.instanceId.Some? ==>
              (StopInstances(event.instanceId.value) in r.calls <==> DescribedState(event, describe) == Returned(Running))
    ensures forall c :: c in r.calls ==> event.instanceId.Some? && c.id == event.instanceId.value
    ensures r.outcome.Returned? ==>
      event.instanceId.Some? && r.outcome.value.statusCode == 200 && Contains(r.outcome.value.body, event.instanceId.value)
    ensures r.outcome.Raised? <==>
      || DescribedState(event, describe).Raised?
      || (DescribedState(event, describe) == Returned(Running) && stop.Raised?)
    ensures r.outcome.Raised? ==> r.outcome.error == (if DescribedState(event, describe).Raised?
                                                      then DescribedState(event, describe).error else stop.error)
    ensures DescribedState(event, describe) == Returned(Running) && stop.Returned? ==>
      r.outcome == Returned(Response(200, ShutdownBody(event.instanceId.value)))
    ensures DescribedState(event, describe).Returned? && DescribedState(event, describe).value != Running ==>
      r.outcome == Returned(Response(200, AlreadyInStateBody(event.instanceId.value, DescribedState(event, describe).value)))
  {
    match DescribedState(event, describe)
    case Raised(e) => HandlerRun(Preamble(event), Raised(e))
    case Returned(state) =>
      var id := event.instanceId.value;
      if state == Running then
        var calls := [DescribeInstances(id), StopInstances(id)];
        ContainsMiddle(ShutdownPrefix, id, "");
        assert ShutdownPrefix + id + "" == ShutdownBody(id);
        match stop
        case Raised(e) => HandlerRun(calls, Raised(e))
        case Returned(_) => HandlerRun(calls, Returned(Response(200, ShutdownBody(id))))
      else
        ContainsMiddle("Instance ", id, " is already in state: " + state);
        assert "Instance " + id + (" is already in state: " + state) == AlreadyInStateBody(id, state);
        HandlerRun([DescribeInstances(id)], Returned(Response(200, AlreadyInStateBody(id, state))))
  }

  /** `terminate_instance.lambda_handler(event, context)`: terminates the
      instance iff it is not described as `terminated`, so stopped and
      shutting-down instances are terminated too. */
  function TerminateHandler(event: Event, describe: Outcome<seq<seq<string>>>, terminate: Outcome<()>): (r: HandlerRun)
    ensures event.instanceId.None? ==> r.calls == []
    ensures event.instanceId.Some? ==>
              (TerminateInstances(event.instanceId.value) in r.calls
               <==> DescribedState(event, describe).Returned? && DescribedState(event, describe).value != Terminated)
    ensures forall c :: c in r.calls ==> event.instanceId.Some? && c.id == event.instanceId.value
    ensures r.outcome.Returned? ==>
      event.instanceId.Some? && r.outcome.value.statusCode == 200 && Contains(r.outcome.value.body, event.instanceId.value)
    ensures r.outcome.Raised? <==>
      || DescribedState(event, describe).Raised?
      || (DescribedState(event, describe).Returned? && DescribedState(event, describe).value != Terminated && terminate.Raised?)
    ensures r.outcome.Raised? ==> r.outcome.error == (if DescribedState(event, describe).Raised?
                                                      then DescribedState(event, describe).error else terminate.error)
    ensures DescribedState(event, describe).Returned? && DescribedState(event, describe).value != Terminated
            && terminate.Returned? ==>
      r.outcome == Returned(Response(200, TerminationBody(event.instanceId.value)))
    ensures DescribedState(event, describe) == Returned(Terminated) ==>
      r.outcome == Returned(Response(200, AlreadyTerminatedBody(event.instanceId.value)))
  {
    match DescribedState(event, describe)
    case Raised(e) => HandlerRun(Preamble(event), Raised(e))
    case Returned(state) =>
      var id := event.instanceId.value;
      if state != Terminated then
        var calls := [DescribeInstances(id), TerminateInstances(id)];
        ContainsMiddle(TerminationPrefix, id, "");
        assert TerminationPrefix + id + "" == TerminationBody(id);
        match terminate
        case Raised(e) => HandlerRun(calls, Raised(e))
        case Returned(_) => HandlerRun(calls, Returned(Response(200, TerminationBody(id))))
      else
        ContainsMiddle("Instance ", id, " is already terminated");
        assert "Instance " + id + " is already terminated" == AlreadyTerminatedBody(id);
        HandlerRun([DescribeInstances(id)], Returned(Response(200, AlreadyTerminatedBody(id))))
  }

  /** Idempotence: asked again once the instance is stopping or stopped, the
      stop handler only describes it and reports the state; the terminate
      handler makes no call on a terminated instance. */
  lemma StopIdempotent(id: string, state: string, stop: Outcome<()>)
    requires state != Running
    ensures StopHandler(Event(Some(id)), Returned([[state]]), stop)
            == HandlerRun([DescribeInstances(id)], Returned(Response(200, AlreadyInStateBody(id, state))))
  {
  }

  lemma TerminateIdempotent(id: string, terminate: Outcome<()>)
    ensures TerminateHandler(Event(Some(id)), Returned([[Terminated]]), terminate)
            == HandlerRun([DescribeInstances(id)], Returned(Response(200, AlreadyTerminatedBody(id))))
  {
  }

  /** The bodies tell the branches and the instances apart: a success body
      is never a no-op body, and each body determines the instance id (and,
      for the stop no-op, the state). */
  lemma {:induction false} PrefixCancel(p: string, a: string, b: string)
    requires p + a == p + b
    ensures a == b
  {
    assert a == (p + a)[|p|..];
    assert b == (p + b)[|p|..];
  }

  lemma StopBodiesDistinct(id: string, id2: string, state: string)
    ensures ShutdownBody(id) != AlreadyInStateBody(id2, state)
  {
    assert ShutdownBody(id)[0] == ShutdownPrefix[0];
    assert AlreadyInStateBody(id2, state)[0] == "Instance "[0];
  }

  lemma TerminateBodiesDistinct(id: string, id2: string)
    ensures TerminationBody(id) != AlreadyTerminatedBody(id2)
  {
    assert TerminationBody(id)[0] == TerminationPrefix[0];
    assert AlreadyTerminatedBody(id2)[0] == "Instance "[0];
  }

  lemma ShutdownBodyInjective(id: string, id2: string)
    requires ShutdownBody(id) == ShutdownBody(id2)
    ensures id == id2
  {
    PrefixCancel(ShutdownPrefix, id, id2);
  }

  lemma TerminationBodyInjective(id: string, id2: string)
    requires TerminationBody(id) == TerminationBody(id2)
    ensures id == id2
  {
    PrefixCancel(TerminationPrefix, id, id2);
  }
}
