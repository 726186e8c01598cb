/** `GetInstanceSerialOutput`: stream an instance's serial port output by
    polling it with a cursor until the instance stops or the service gives
    up. */
module Serial {
  import opened Cloud
  import opened Outcomes

  /** The outcome of the loop, the requests it issued and the chunks it
      printed, in order. */
  datatype SerialRun = SerialRun(outcome: Outcome, calls: seq<Call>, printed: seq<string>)

  /** A reply after which the loop issues no further request: anything but a
      400 error and a chunk that is not the last. The service marks the last
      chunk of a stopped instance with a positive start and a zero next
      offset. */
  predicate Stops(reply: Result<SerialPortOutput, Error>)
  {
    match reply
    case Failure(e) => !(e.ApiError? && e.code == 400)
    case Success(res) => res.start > 0 && res.next == 0
  }

  /** How the loop ends on a reply that stops it: the unchecked type
      assertion panics on an error that is not an API error, a 503 and the
      last chunk end it normally, and any other API error is returned. */
  function StopOutcome(reply: Result<SerialPortOutput, Error>): Outcome
    requires Stops(reply)
  {
    match reply
    case Failure(OtherError(_)) => Panic
    case Failure(ApiError(code, _)) => if code == 503 then Pass else Fail(ServiceError(reply.error))
    case Success(_) => Pass
  }

  /** The cursor after a reply: the reported next offset after a chunk,
      unchanged after an error. */
  function NextCursor(reply: Result<SerialPortOutput, Error>, cursor: int): int
  {
    if reply.Success? then reply.value.next else cursor
  }

  /** What a reply makes the loop print: the chunk, if it is one. */
  function Printed(reply: Result<SerialPortOutput, Error>): seq<string>
  {
    if reply.Success? then [reply.value.contents] else []
  }

  /** The loop from request `i` on, with the cursor at `cursor`. The reply to
      request `stop` stops the loop, so the loop has ended by then. */
  function SerialFrom(svc: Service, zone: string, instance: string, i: nat, cursor: int, stop: nat): SerialRun
    requires i <= stop && Stops(svc.serial(stop))
    decreases stop - i
  {
    var get := SerialPortGet(zone, instance, cursor);
    var reply := svc.serial(i);
    if Stops(reply) then SerialRun(StopOutcome(reply), [get], Printed(reply))
    else
      var rest := SerialFrom(svc, zone, instance, i + 1, NextCursor(reply, cursor), stop);
      SerialRun(rest.outcome, [get] + rest.calls, Printed(reply) + rest.printed)
  }

  /** `GetInstanceSerialOutput` whose first request is request `n`: the cursor
      starts at 0. */
  function SerialOutputRun(svc: Service, zone: string, instance: string, n: nat, stop: nat): SerialRun
    requires n <= stop && Stops(svc.serial(stop))
  {
    SerialFrom(svc, zone, instance, n, 0, stop)
  }

  /** The run does not depend on which stopping request bounds it. */
  lemma {:induction false} SerialWitnessIrrelevant(svc: Service, zone: string, instance: string, i: nat, cursor: int, stop1: nat, stop2: nat)
    requires i <= stop1 && Stops(svc.serial(stop1))
    requires i <= stop2 && Stops(svc.serial(stop2))
    ensures SerialFrom(svc, zone, instance, i, cursor, stop1) == SerialFrom(svc, zone, instance, i, cursor, stop2)
    decreases stop1 - i
  {
    if !Stops(svc.serial(i)) {
      SerialWitnessIrrelevant(svc, zone, instance, i + 1, NextCursor(svc.serial(i), cursor), stop1, stop2);
    }
  }

  /** The loop ends on the first reply that stops it, with that reply's
      outcome: every earlier reply was a 400 error or a chunk that was not
      the last, so the loop retried. */
  lemma {:induction false} SerialStopsAtFirst(svc: Service, zone: string, instance: string, i: nat, cursor: int, stop: nat)
    requires i <= stop && Stops(svc.serial(stop))
    ensures var run := SerialFrom(svc, zone, instance, i, cursor, stop);
      && 1 <= |run.calls| <= stop - i + 1
      && Stops(svc.serial(i + |run.calls| - 1))
      && (forall j :: i <= j < i + |run.calls| - 1 ==> !Stops(svc.serial(j)))
      && run.outcome == StopOutcome(svc.serial(i + |run.calls| - 1))
    decreases stop - i
  {
    if !Stops(svc.serial(i)) {
      SerialStopsAtFirst(svc, zone, instance, i + 1, NextCursor(svc.serial(i), cursor), stop);
    }
  }

  /** The outcome of a stopping reply: success on a 503 or on the last chunk,
      a panic on an error that is not an API error, and otherwise the API
      error itself, which is then neither a 400 nor a 503. */
  lemma StopOutcomeCases(reply: Result<SerialPortOutput, Error>)
    requires Stops(reply)
    ensures StopOutcome(reply) == Pass <==>
      reply.Success? || (reply.error.ApiError? && reply.error.code == 503)
    ensures StopOutcome(reply) == Panic <==> reply.Failure? && reply.error.OtherError?
    ensures StopOutcome(reply).Fail? <==>
      reply.Failure? && reply.error.ApiError? && reply.error.code != 400 && reply.error.code != 503
    ensures StopOutcome(reply).Fail? ==> StopOutcome(reply) == Fail(ServiceError(reply.error))
  {
  }

  /** Requests from request `i` on that each read the serial port of
      `instance`, from the cursor the previous reply left: the same cursor
      after an error, the chunk's next offset after a chunk. */
  predicate CursorSteps(svc: Service, zone: string, instance: string, i: nat, calls: seq<Call>)
  {
    && (forall p :: 0 <= p < |calls| ==>
          calls[p].SerialPortGet? && calls[p].serialZone == zone && calls[p].serialInstance == instance)
    && (forall p :: 0 <= p < |calls| - 1 ==> calls[p + 1].start == NextCursor(svc.serial(i + p), calls[p].start))
  }

  /** Every request reads the serial port of the same instance. The first
      one reads from the starting cursor; after a 400 error the next one
      reads from the same cursor, and after a chunk from the chunk's next
      offset. */
  lemma {:induction false} SerialCursor(svc: Service, zone: string, instance: string, i: nat, cursor: int, stop: nat)
    requires i <= stop && Stops(svc.serial(stop))
    ensures var run := SerialFrom(svc, zone, instance, i, cursor, stop);
      && |run.calls| >= 1
      && run.calls[0] == SerialPortGet(zone, instance, cursor)
      && CursorSteps(svc, zone, instance, i, run.calls)
    decreases stop - i
  {
    var reply := svc.serial(i);
    if !Stops(reply) {
      var next := NextCursor(reply, cursor);
      var rest := SerialFrom(svc, zone, instance, i + 1, next, stop);
      var run := SerialFrom(svc, zone, instance, i, cursor, stop);
      SerialCursor(svc, zone, instance, i + 1, next, stop);
      assert CursorSteps(svc, zone, instance, i + 1, rest.calls);
      assert run.calls == [SerialPortGet(zone, instance, cursor)] + rest.calls;
      forall p | 1 <= p < |run.calls| ensures run.calls[p] == rest.calls[p - 1] {
      }
      forall p | 1 <= p < |run.calls| - 1
        ensures run.calls[p + 1].start == NextCursor(svc.serial(i + p), run.calls[p].start)
      {
        assert i + p == (i + 1) + (p - 1);
      }
    }
  }

  /** A 400 error followed by a chunk that is not the last: the first two
      requests both read from offset 0, and the third reads from the chunk's
      next offset. */
  lemma SerialRetryThenChunk(svc: Service, zone: string, instance: string, n: nat, stop: nat)
    requires n <= stop && Stops(svc.serial(stop))
    requires svc.serial(n).Failure? && svc.serial(n).error.ApiError? && svc.serial(n).error.code == 400
    requires svc.serial(n + 1).Success? && !Stops(svc.serial(n + 1))
    ensures var run := SerialOutputRun(svc, zone, instance, n, stop);
      && |run.calls| >= 3
      && run.calls[0] == SerialPortGet(zone, instance, 0)
      && run.calls[1] == SerialPortGet(zone, instance, 0)
      && run.calls[2] == SerialPortGet(zone, instance, svc.serial(n + 1).value.next)
  {
    var run := SerialOutputRun(svc, zone, instance, n, stop);
    SerialStopsAtFirst(svc, zone, instance, n, 0, stop);
    SerialCursor(svc, zone, instance, n, 0, stop);
    assert n + 1 == n + 1 + 0;
  }

  /** The chunks the requests from `i` on return, `k` requests long, in
      order. */
  function Chunks(svc: Service, i: nat, k: nat): seq<string>
    decreases k
  {
    if k == 0 then [] else Printed(svc.serial(i)) + Chunks(svc, i + 1, k - 1)
  }

  /** The loop prints exactly the chunks it receives, in order, each once. */
  lemma {:induction false} SerialPrintsChunks(svc: Service, zone: string, instance: string, i: nat, cursor: int, stop: nat)
    requires i <= stop && Stops(svc.serial(stop))
    ensures var run := SerialFrom(svc, zone, instance, i, cursor, stop);
      run.printed == Chunks(svc, i, |run.calls|)
    decreases stop - i
  {
    var reply := svc.serial(i);
    if Stops(reply) {
      assert Chunks(svc, i + 1, 0) == [];
    } else {
      SerialPrintsChunks(svc, zone, instance, i + 1, NextCursor(reply, cursor), stop);
    }
  }

  /** The state of the loop after `calls` and `printed`, with the cursor at
      `cursor`: the rest of the run continues from there. */
  ghost predicate SerialAfter(svc: Service, zone: string, instance: string, n: nat, stop: nat,
                              cursor: int, calls: seq<Call>, printed: seq<string>)
    requires n <= stop && Stops(svc.serial(stop))
  {
    && n + |calls| <= stop
    && var rest := SerialFrom(svc, zone, instance, n + |calls|, cursor, stop);
       SerialOutputRun(svc, zone, instance, n, stop) == SerialRun(rest.outcome, calls + rest.calls, printed + rest.printed)
  }

  /** A reply that does not stop the loop moves it one request on. */
  lemma SerialAdvance(svc: Service, zone: string, instance: string, n: nat, stop: nat,
                      cursor: int, calls: seq<Call>, printed: seq<string>)
    requires n <= stop && Stops(svc.serial(stop))
    requires SerialAfter(svc, zone, instance, n, stop, cursor, calls, printed)
    requires !Stops(svc.serial(n + |calls|))
    ensures SerialAfter(svc, zone, instance, n, stop, NextCursor(svc.serial(n + |calls|), cursor),
                        calls + [SerialPortGet(zone, instance, cursor)], printed + Printed(svc.serial(n + |calls|)))
  {
    var reply := svc.serial(n + |calls|);
    var get := SerialPortGet(zone, instance, cursor);
    var rest := SerialFrom(svc, zone, instance, n + |calls| + 1, NextCursor(reply, cursor), stop);
    AppendAssoc(calls, [get], rest.calls);
    AppendAssoc(printed, Printed(reply), rest.printed);
  }

  /** A reply that stops the loop ends it with the reply's outcome. */
  lemma SerialHalt(svc: Service, zone: string, instance: string, n: nat, stop: nat,
                   cursor: int, calls: seq<Call>, printed: seq<string>)
    requires n <= stop && Stops(svc.serial(stop))
    requires SerialAfter(svc, zone, instance, n, stop, cursor, calls, printed)
    requires Stops(svc.serial(n + |calls|))
    ensures SerialOutputRun(svc, zone, instance, n, stop)
      == SerialRun(StopOutcome(svc.serial(n + |calls|)), calls + [SerialPortGet(zone, instance, cursor)],
                   printed + Printed(svc.serial(n + |calls|)))
  {
  }

  /** One turn of the loop of `GetInstanceSerialOutput`: request the output
      from `next` on and act on the reply. Either the reply ends the loop with
      the run's outcome, or the loop goes on from the new cursor. */
  method SerialTurn(svc: Service, n: nat, instance: string, zone: string, ghost stop: nat,
                    next: int, calls: seq<Call>, printed: seq<string>)
    returns (done: bool, r: Outcome, calls': seq<Call>, printed': seq<string>, next': int)
    requires n <= stop && Stops(svc.serial(stop))
    requires SerialAfter(svc, zone, instance, n, stop, next, calls, printed)
    ensures |calls'| == |calls| + 1
    ensures done ==> SerialRun(r, calls', printed') == SerialOutputRun(svc, zone, instance, n, stop)
    ensures !done ==> SerialAfter(svc, zone, instance, n, stop, next', calls', printed')
  {
    var res := svc.serial(n + |calls|);
    calls' := calls + [SerialPortGet(zone, instance, next)];
    printed' := printed;
    next' := next;
    r := Pass;
    if res.Failure? {
      if !res.error.ApiError? {
        SerialHalt(svc, zone, instance, n, stop, next, calls, printed);
        return true, Panic, calls', printed', next';
      }
      if res.error.code == 400 {
        SerialAdvance(svc, zone, instance, n, stop, next, calls, printed);
        return false, r, calls', printed', next';
      }
      SerialHalt(svc, zone, instance, n, stop, next, calls, printed);
      if res.error.code == 503 {
        return true, Pass, calls', printed', next';
      }
      return true, Fail(ServiceError(res.error)), calls', printed', next';
    }
    var chunk := res.value;
    if chunk.start > 0 && chunk.next == 0 {
      SerialHalt(svc, zone, instance, n, stop, next, calls, printed);
    } else {
      SerialAdvance(svc, zone, instance, n, stop, next, calls, printed);
    }
    printed' := printed + [chunk.contents];
    next' := chunk.next;
    done := chunk.start > 0 && next' == 0;
  }

  /** `GetInstanceSerialOutput`, whose first request is request `n`, for an
      instance whose serial replies eventually stop the loop, at request
      `stop` at the latest. */
  method GetInstanceSerialOutput(svc: Service, n: nat, instance: string, zone: string, ghost stop: nat)
    returns (r: Outcome, calls: seq<Call>, printed: seq<string>)
    requires n <= stop && Stops(svc.serial(stop))
    ensures SerialRun(r, calls, printed) == SerialOutputRun(svc, zone, instance, n, stop)
  {
    var next := 0;
    calls := [];
    printed := [];
    while true
      invariant SerialAfter(svc, zone, instance, n, stop, next, calls, printed)
      decreases stop - (n + |calls|)
    {
      var done;
      done, r, calls, printed, next := SerialTurn(svc, n, instance, zone, stop, next, calls, printed);
      if done {
        return;
      }
    }
  }
}
