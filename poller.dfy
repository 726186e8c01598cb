/** The operation poller: `pollOperationStatus` and `pollZoneOperationStatus`.
    The two differ only in the endpoint they fetch from, which is the `Scope`
    here. The sleep between attempts has no observable effect in this model. */
module Poller {
  import opened Cloud
  import opened Outcomes

  /** The attempt budget (`timeout` in gcp.go). */
  const MaxAttempts: nat := 300

  /** The only status the poller treats as terminal. */
  const DoneStatus: string := "DONE"

  /** The reply to fetch number `j` of a poll whose first fetch is request `n`. */
  function Fetch(svc: Service, n: nat, j: nat): Result<Operation, Error>
  {
    svc.operation(n + j)
  }

  /** A fetch after which the poller tries again. */
  predicate Pending(f: Result<Operation, Error>)
  {
    f.Success? && f.value.error.None? && f.value.status != DoneStatus
  }

  /** A fetch that completes the poll successfully. */
  predicate Done(f: Result<Operation, Error>)
  {
    f.Success? && f.value.error.None? && f.value.status == DoneStatus
  }

  /** What the poller returns on a fetch that ends the poll. */
  function Settle(f: Result<Operation, Error>): (r: Outcome)
    requires !Pending(f)
    ensures r == Pass <==> Done(f)
    ensures r.Fail? && r.failure.FetchFailed? <==> f.Failure?
    ensures r.Fail? && r.failure.OperationFailed? <==> f.Success? && f.value.error.Some?
  {
    match f
    case Failure(e) => Fail(FetchFailed(e))
    case Success(op) => if op.error.Some? then Fail(OperationFailed(op.error.value)) else Pass
  }

  datatype PollResult = PollResult(outcome: Outcome, fetches: nat)

  /** The rest of a poll whose first fetch was request `start` and whose next
      fetch is request `n`; `n - start` is the attempt counter of the Go loop. */
  function PollFrom(svc: Service, start: nat, n: nat): PollResult
    requires start <= n
    decreases MaxAttempts - (n - start)
  {
    if n - start >= MaxAttempts then PollResult(Fail(PollTimeout), 0)
    else if !Pending(svc.operation(n)) then PollResult(Settle(svc.operation(n)), 1)
    else
      var rest := PollFrom(svc, start, n + 1);
      PollResult(rest.outcome, rest.fetches + 1)
  }

  /** A whole poll whose first fetch is request `n`. */
  function Poll(svc: Service, n: nat): PollResult
  {
    PollFrom(svc, n, n)
  }

  lemma {:induction false} PollFromCharacterized(svc: Service, start: nat, n: nat)
    requires start <= n && n - start < MaxAttempts
    ensures var p := PollFrom(svc, start, n);
      && 1 <= p.fetches <= MaxAttempts - (n - start)
      && (forall j :: 0 <= j < p.fetches - 1 ==> Pending(Fetch(svc, n, j)))
      && (!Pending(Fetch(svc, n, p.fetches - 1)) ==> p.outcome == Settle(Fetch(svc, n, p.fetches - 1)))
      && (Pending(Fetch(svc, n, p.fetches - 1)) ==>
            p.fetches == MaxAttempts - (n - start) && p.outcome == Fail(PollTimeout))
    decreases MaxAttempts - (n - start)
  {
    if Pending(svc.operation(n)) && n + 1 - start < MaxAttempts {
      PollFromCharacterized(svc, start, n + 1);
      var p := PollFrom(svc, start, n);
      forall j | 0 <= j < p.fetches - 1 ensures Pending(Fetch(svc, n, j)) {
        if j > 0 {
          assert Fetch(svc, n, j) == Fetch(svc, n + 1, j - 1);
        }
      }
      assert Fetch(svc, n, p.fetches - 1) == Fetch(svc, n + 1, p.fetches - 2);
    }
  }

  /** A poll fetches between 1 and 300 times. Every fetch but the last saw a
      pending operation. The last fetch decides the outcome: a fetch error, an
      operation error, or DONE. If it too was pending, the budget is used up
      and the result is the timeout. */
  lemma PollCharacterized(svc: Service, n: nat)
    ensures var p := Poll(svc, n);
      && 1 <= p.fetches <= MaxAttempts
      && (forall j :: 0 <= j < p.fetches - 1 ==> Pending(Fetch(svc, n, j)))
      && (!Pending(Fetch(svc, n, p.fetches - 1)) ==> p.outcome == Settle(Fetch(svc, n, p.fetches - 1)))
      && (Pending(Fetch(svc, n, p.fetches - 1)) ==>
            p.fetches == MaxAttempts && p.outcome == Fail(PollTimeout))
  {
    PollFromCharacterized(svc, n, n);
  }

  /** A poll whose fetches up to `i` were pending and whose fetch `i` is not
      ends there, on that fetch's verdict. */
  lemma PollStopsAt(svc: Service, n: nat, i: nat)
    requires i < MaxAttempts
    requires forall j :: 0 <= j < i ==> Pending(Fetch(svc, n, j))
    requires !Pending(Fetch(svc, n, i))
    ensures Poll(svc, n) == PollResult(Settle(Fetch(svc, n, i)), i + 1)
  {
    var p := Poll(svc, n);
    PollCharacterized(svc, n);
  }

  /** A poll whose 300 fetches were all pending times out after 300 fetches. */
  lemma PollExhausts(svc: Service, n: nat)
    requires forall j :: 0 <= j < MaxAttempts ==> Pending(Fetch(svc, n, j))
    ensures Poll(svc, n) == PollResult(Fail(PollTimeout), MaxAttempts)
  {
    PollCharacterized(svc, n);
    assert Pending(Fetch(svc, n, Poll(svc, n).fetches - 1));
  }

  /** The poll succeeds exactly when some fetch within the budget sees DONE
      with no error, after only pending fetches. */
  lemma PollPassIff(svc: Service, n: nat)
    ensures Poll(svc, n).outcome == Pass <==>
      exists k :: 0 <= k < MaxAttempts && Done(Fetch(svc, n, k)) &&
        forall j :: 0 <= j < k ==> Pending(Fetch(svc, n, j))
  {
    var p := Poll(svc, n);
    PollCharacterized(svc, n);
    if p.outcome == Pass {
      assert Done(Fetch(svc, n, p.fetches - 1));
    }
    if exists k :: 0 <= k < MaxAttempts && Done(Fetch(svc, n, k)) &&
        forall j :: 0 <= j < k ==> Pending(Fetch(svc, n, j))
    {
      var k :| 0 <= k < MaxAttempts && Done(Fetch(svc, n, k)) &&
        forall j :: 0 <= j < k ==> Pending(Fetch(svc, n, j));
      PollStopsAt(svc, n, k);
    }
  }

  /** The poll times out exactly when all 300 fetches see a pending
      operation; it then has made exactly 300 fetches. */
  lemma PollTimeoutIff(svc: Service, n: nat)
    ensures Poll(svc, n).outcome == Fail(PollTimeout) <==>
      forall j :: 0 <= j < MaxAttempts ==> Pending(Fetch(svc, n, j))
    ensures Poll(svc, n).outcome == Fail(PollTimeout) ==> Poll(svc, n).fetches == MaxAttempts
  {
    PollCharacterized(svc, n);
    if forall j :: 0 <= j < MaxAttempts ==> Pending(Fetch(svc, n, j)) {
      PollExhausts(svc, n);
    }
  }

  /** A successful poll ended on a fetch that saw DONE without error. */
  lemma PollPassEndsDone(svc: Service, n: nat)
    requires Poll(svc, n).outcome == Pass
    ensures Poll(svc, n).fetches >= 1 && Done(Fetch(svc, n, Poll(svc, n).fetches - 1))
  {
    PollCharacterized(svc, n);
  }

  /** The poller never produces a validation failure or a panic. */
  lemma PollOutcomeKinds(svc: Service, n: nat)
    ensures var o := Poll(svc, n).outcome;
      o == Pass || (o.Fail? && (o.failure.FetchFailed? || o.failure.OperationFailed? || o.failure == PollTimeout))
  {
    PollCharacterized(svc, n);
  }

  /** Issue a request that starts an operation (request `n`), then poll that
      operation; an error from the request itself is returned unchanged. */
  function MutateAndPoll(svc: Service, n: nat, call: Call, scope: Scope): Run
  {
    match svc.mutation(n)
    case Failure(e) => Run(Fail(ServiceError(e)), [call])
    case Success(op) =>
      var p := Poll(svc, n + 1);
      Run(p.outcome, [call] + Repeat(OperationGet(scope, op), p.fetches))
  }

  /** The requests of a mutate-then-poll: the mutation first, then, if it
      started an operation, only fetches of that operation, as many as the
      poll made. */
  lemma MutateAndPollShape(svc: Service, n: nat, call: Call, scope: Scope)
    ensures var run := MutateAndPoll(svc, n, call, scope);
      && 1 <= |run.calls| && run.calls[0] == call
      && (svc.mutation(n).Failure? ==> |run.calls| == 1)
      && (svc.mutation(n).Success? ==>
            && |run.calls| == 1 + Poll(svc, n + 1).fetches
            && forall i :: 1 <= i < |run.calls| ==> run.calls[i] == OperationGet(scope, svc.mutation(n).value))
  {
    if svc.mutation(n).Success? {
      RepeatAll(OperationGet(scope, svc.mutation(n).value), Poll(svc, n + 1).fetches);
    }
  }

  /** The insert-or-delete-then-poll pattern of gcp.go: issue `call`
      (request `n`); return its error unchanged, or poll the operation it
      started. */
  method MutateAndPollOperation(svc: Service, n: nat, call: Call, scope: Scope)
    returns (r: Outcome, calls: seq<Call>)
    ensures var run := MutateAndPoll(svc, n, call, scope);
      r == run.outcome && calls == run.calls
  {
    var op := svc.mutation(n);
    if op.Failure? {
      return Fail(ServiceError(op.error)), [call];
    }
    var polls;
    r, polls := PollOperationStatus(svc, n + 1, scope, op.value);
    calls := [call] + polls;
  }

  /** `pollOperationStatus` / `pollZoneOperationStatus`: fetch the operation
      up to 300 times, stopping at the first fetch error, operation error or
      DONE. `n` is the position of the first fetch in the session's request
      log; `calls` are the requests issued. */
  method PollOperationStatus(svc: Service, n: nat, scope: Scope, operationName: string)
    returns (r: Outcome, calls: seq<Call>)
    ensures var p := Poll(svc, n);
      r == p.outcome && calls == Repeat(OperationGet(scope, operationName), p.fetches)
  {
    var call := OperationGet(scope, operationName);
    calls := [];
    r := Fail(PollTimeout);
    var i := 0;
    while i < MaxAttempts
      invariant 0 <= i <= MaxAttempts
      invariant calls == Repeat(call, i)
      invariant forall j :: 0 <= j < i ==> Pending(Fetch(svc, n, j))
      invariant r == Fail(PollTimeout)
    {
      var operation := svc.operation(n + i);
      calls := calls + [call];
      if operation.Failure? {
        r := Fail(FetchFailed(operation.error));
      } else if operation.value.error.Some? {
        r := Fail(OperationFailed(operation.value.error.value));
      } else if operation.value.status == DoneStatus {
        r := Pass;
      }
      if r != Fail(PollTimeout) {
        PollStopsAt(svc, n, i);
        return;
      }
      i := i + 1;
    }
    PollExhausts(svc, n);
  }
}
