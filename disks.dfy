/** The data disks of `CreateInstance`: how each requested disk is named and
    sized, and the loop that inserts them one by one, each polled to
    completion before the next. */
module Disks {
  import opened Cloud
  import opened Outcomes
  import opened Poller
  import opened Text

  /** The name of data disk `i`: its path, or `<instance>-disk-<i>`. */
  function DiskName(instance: string, disk: DiskConfig, i: nat): string
  {
    if disk.path != "" then disk.path else instance + "-disk-" + DecimalString(i)
  }

  /** The size of a data disk in GB; an unset size is 1 GB. */
  function DiskSizeGb(c: Client, disk: DiskConfig): int
  {
    if disk.size == 0 then 1 else c.convertMBtoGB(disk.size)
  }

  /** The disk object inserted for data disk `i`. */
  function DiskDescriptor(c: Client, req: InstanceRequest, i: nat): DiskResource
    requires i < |req.disks|
  {
    DiskResource(DiskName(req.name, req.disks[i], i), DiskSizeGb(c, req.disks[i]),
                 if req.vtpm then [Some(GuestOsFeature(UefiCompatibleFeature))] else [])
  }

  /** All data-disk objects of a request, in request order. */
  function AllDiskDescriptors(c: Client, req: InstanceRequest): (s: seq<DiskResource>)
    ensures |s| == |req.disks|
  {
    seq(|req.disks|, i requires 0 <= i < |req.disks| => DiskDescriptor(c, req, i))
  }

  /** Unnamed data disks at different positions get different names. */
  lemma {:induction false} DefaultDiskNamesDistinct(instance: string, d1: DiskConfig, d2: DiskConfig, i: nat, j: nat)
    requires d1.path == "" && d2.path == "" && i != j
    ensures DiskName(instance, d1, i) != DiskName(instance, d2, j)
  {
    var prefix := instance + "-disk-";
    if DiskName(instance, d1, i) == DiskName(instance, d2, j) {
      assert prefix + DecimalString(i) == prefix + DecimalString(j);
      assert DecimalString(i) == (prefix + DecimalString(i))[|prefix|..];
      assert DecimalString(j) == (prefix + DecimalString(j))[|prefix|..];
      DecimalInjective(i, j);
    }
  }

  /** The attached-disk entry of a created data disk. */
  function DataDisk(zone: string, diskName: string): AttachedDisk
  {
    AttachedDisk(true, false, None, "zones/" + zone + "/disks/" + diskName)
  }

  /** The result of the disk loop: outcome, requests, and the attached-disk
      entries appended. */
  datatype DiskRun = DiskRun(outcome: Outcome, calls: seq<Call>, attached: seq<AttachedDisk>)

  /** One turn of the disk loop whose insert is request `m`: insert the disk
      object `d`, then poll its zone operation. */
  function InsertDisk(svc: Service, zone: string): (nat, DiskResource) -> Run
  {
    (m: nat, d: DiskResource) => MutateAndPoll(svc, m, DiskInsert(zone, d), Zone(zone))
  }

  /** The loop over the disk objects `disks`, whose first request is request
      `n`, where `turn` gives the run of one turn. The turns run one after
      another, and the first failure ends the loop. */
  function DiskLoop(turn: (nat, DiskResource) -> Run, n: nat, zone: string, disks: seq<DiskResource>): DiskRun
    decreases |disks|
  {
    if disks == [] then DiskRun(Pass, [], [])
    else
      var step := turn(n, disks[0]);
      if step.outcome != Pass then DiskRun(step.outcome, step.calls, [])
      else
        var rest := DiskLoop(turn, n + |step.calls|, zone, disks[1..]);
        DiskRun(rest.outcome, step.calls + rest.calls, [DataDisk(zone, disks[0].name)] + rest.attached)
  }

  /** The disk loop of `CreateInstance`: each disk is inserted and its zone
      operation polled to completion before the next. */
  function CreateDisks(svc: Service, n: nat, zone: string, disks: seq<DiskResource>): DiskRun
  {
    DiskLoop(InsertDisk(svc, zone), n, zone, disks)
  }

  /** The requests of a turn on disk `d` whose insert is request `m`: the
      insert of `d` in `zone`, then only polls of the zone operation that
      insert started. */
  predicate InsertThenPolls(svc: Service, m: nat, zone: string, d: DiskResource, calls: seq<Call>)
  {
    1 <= |calls| && calls[0] == DiskInsert(zone, d) &&
    forall i :: 1 <= i < |calls| ==>
      svc.mutation(m).Success? && calls[i] == OperationGet(Zone(zone), svc.mutation(m).value)
  }

  /** An outcome that the service and the poller can produce: neither a
      validation failure nor a panic. */
  predicate ServiceOutcome(o: Outcome)
  {
    o != Panic && o != Fail(VtpmUnsupported) && o != Fail(NestedUnsupported)
  }

  /** A successful turn whose insert is request `m` ends on a poll whose
      reply was DONE without error. */
  predicate EndsOnDone(svc: Service, m: nat, s: Run)
  {
    s.outcome == Pass ==>
      2 <= |s.calls| && s.calls[|s.calls| - 1].OperationGet? && Done(svc.operation(m + |s.calls| - 1))
  }

  ghost predicate TurnsInsertThenPoll(svc: Service, zone: string, turn: (nat, DiskResource) -> Run)
  {
    forall m: nat, d: DiskResource :: InsertThenPolls(svc, m, zone, d, turn(m, d).calls)
  }

  ghost predicate TurnsServiceOutcome(turn: (nat, DiskResource) -> Run)
  {
    forall m: nat, d: DiskResource :: ServiceOutcome(turn(m, d).outcome)
  }

  ghost predicate TurnsEndOnDone(svc: Service, turn: (nat, DiskResource) -> Run)
  {
    forall m: nat, d: DiskResource :: EndsOnDone(svc, m, turn(m, d))
  }

  /** Inserting a disk and polling its operation is a turn of each of these
      shapes. */
  lemma InsertDiskTurns(svc: Service, zone: string)
    ensures TurnsInsertThenPoll(svc, zone, InsertDisk(svc, zone))
    ensures TurnsServiceOutcome(InsertDisk(svc, zone))
    ensures TurnsEndOnDone(svc, InsertDisk(svc, zone))
  {
    forall m: nat, d: DiskResource
      ensures InsertThenPolls(svc, m, zone, d, InsertDisk(svc, zone)(m, d).calls)
      ensures ServiceOutcome(InsertDisk(svc, zone)(m, d).outcome)
      ensures EndsOnDone(svc, m, InsertDisk(svc, zone)(m, d))
    {
      MutateAndPollShape(svc, m, DiskInsert(zone, d), Zone(zone));
      PollOutcomeKinds(svc, m + 1);
      if svc.mutation(m).Success? && Poll(svc, m + 1).outcome == Pass {
        PollPassEndsDone(svc, m + 1);
      }
    }
  }

  /** One turn of the loop, once the first disk's turn (requests `step`) has
      succeeded. */
  lemma DiskLoopNext(turn: (nat, DiskResource) -> Run, n: nat, zone: string, disks: seq<DiskResource>, step: seq<Call>)
    requires disks != []
    requires turn(n, disks[0]) == Run(Pass, step)
    ensures var rest := DiskLoop(turn, n + |step|, zone, disks[1..]);
      DiskLoop(turn, n, zone, disks)
        == DiskRun(rest.outcome, step + rest.calls, [DataDisk(zone, disks[0].name)] + rest.attached)
  {
  }

  /** A first turn that fails ends the loop with its failure and its requests. */
  lemma DiskLoopStop(turn: (nat, DiskResource) -> Run, n: nat, zone: string, disks: seq<DiskResource>)
    requires disks != []
    requires turn(n, disks[0]).outcome != Pass
    ensures DiskLoop(turn, n, zone, disks) == DiskRun(turn(n, disks[0]).outcome, turn(n, disks[0]).calls, [])
  {
  }

  /** The disk objects inserted by a list of requests, in order. */
  function DiskInserts(calls: seq<Call>): seq<DiskResource>
  {
    if calls == [] then []
    else (if calls[0].DiskInsert? then [calls[0].disk] else []) + DiskInserts(calls[1..])
  }

  lemma {:induction false} DiskInsertsAppend(a: seq<Call>, b: seq<Call>)
    ensures DiskInserts(a + b) == DiskInserts(a) + DiskInserts(b)
    decreases |a|
  {
    if a != [] {
      DiskInsertsAppend(a[1..], b);
      assert (a + b)[0] == a[0];
      assert (a + b)[1..] == a[1..] + b;
    } else {
      assert a + b == b;
    }
  }

  lemma {:induction false} DiskInsertsNone(calls: seq<Call>)
    requires forall p :: 0 <= p < |calls| ==> !calls[p].DiskInsert?
    ensures DiskInserts(calls) == []
    decreases |calls|
  {
    if calls != [] {
      DiskInsertsNone(calls[1..]);
    }
  }

  /** A well-shaped turn on `d` inserts `d` and no other disk. */
  lemma TurnInserts(svc: Service, m: nat, zone: string, d: DiskResource, calls: seq<Call>)
    requires InsertThenPolls(svc, m, zone, d, calls)
    ensures DiskInserts(calls) == [d]
  {
    assert calls == [calls[0]] + calls[1..];
    DiskInsertsNone(calls[1..]);
    DiskInsertsAppend([calls[0]], calls[1..]);
  }

  /** A disk insert into `zone`, or a poll of an operation of `zone`. */
  predicate InZone(zone: string, c: Call)
  {
    (c.DiskInsert? && c.diskZone == zone) || (c.OperationGet? && c.scope == Zone(zone))
  }

  /** Requests that are all disk inserts into `zone` or polls of its operations. */
  predicate InsertsAndPolls(zone: string, calls: seq<Call>)
  {
    forall p :: 0 <= p < |calls| ==> InZone(zone, calls[p])
  }

  lemma InsertsAndPollsAppend(zone: string, a: seq<Call>, b: seq<Call>)
    requires InsertsAndPolls(zone, a) && InsertsAndPolls(zone, b)
    ensures InsertsAndPolls(zone, a + b)
  {
    forall p | 0 <= p < |a + b| ensures InZone(zone, (a + b)[p]) {
      if p < |a| {
        assert (a + b)[p] == a[p];
      } else {
        assert (a + b)[p] == b[p - |a|];
      }
    }
  }

  /** The disk loop issues only disk inserts into its zone and polls of
      that zone's operations. */
  lemma {:induction false} DiskLoopCalls(svc: Service, turn: (nat, DiskResource) -> Run, n: nat, zone: string, disks: seq<DiskResource>)
    requires TurnsInsertThenPoll(svc, zone, turn)
    ensures InsertsAndPolls(zone, DiskLoop(turn, n, zone, disks).calls)
    decreases |disks|
  {
    if disks != [] {
      var step := turn(n, disks[0]);
      assert InsertThenPolls(svc, n, zone, disks[0], step.calls);
      assert InsertsAndPolls(zone, step.calls);
      if step.outcome == Pass {
        var rest := DiskLoop(turn, n + |step.calls|, zone, disks[1..]);
        DiskLoopCalls(svc, turn, n + |step.calls|, zone, disks[1..]);
        InsertsAndPollsAppend(zone, step.calls, rest.calls);
      }
    }
  }

  /** The disk loop never fails with a validation error or a panic. */
  lemma {:induction false} DiskLoopOutcome(turn: (nat, DiskResource) -> Run, n: nat, zone: string, disks: seq<DiskResource>)
    requires TurnsServiceOutcome(turn)
    ensures ServiceOutcome(DiskLoop(turn, n, zone, disks).outcome)
    decreases |disks|
  {
    if disks != [] {
      var step := turn(n, disks[0]);
      assert ServiceOutcome(step.outcome);
      if step.outcome == Pass {
        DiskLoopOutcome(turn, n + |step.calls|, zone, disks[1..]);
      }
    }
  }

  /** A successful disk loop has attached one entry per disk, in order, each
      naming its disk in the loop's zone. */
  lemma {:induction false} DiskLoopAttached(turn: (nat, DiskResource) -> Run, n: nat, zone: string, disks: seq<DiskResource>)
    ensures var run := DiskLoop(turn, n, zone, disks);
      run.outcome == Pass ==>
        |run.attached| == |disks| &&
        forall k :: 0 <= k < |disks| ==> run.attached[k] == DataDisk(zone, disks[k].name)
    decreases |disks|
  {
    if disks != [] {
      var step := turn(n, disks[0]);
      if step.outcome == Pass {
        var rest := DiskLoop(turn, n + |step.calls|, zone, disks[1..]);
        DiskLoopAttached(turn, n + |step.calls|, zone, disks[1..]);
        if rest.outcome == Pass {
          var attached := [DataDisk(zone, disks[0].name)] + rest.attached;
          forall k | 0 <= k < |disks| ensures attached[k] == DataDisk(zone, disks[k].name) {
            if k > 0 {
              assert attached[k] == rest.attached[k - 1];
              assert disks[k] == disks[1..][k - 1];
            }
          }
        }
      }
    }
  }

  /** Putting the first disk back in front of a prefix of the remaining
      disks gives a prefix of all of them, and all of them from all the rest. */
  lemma ConsPrefix(disks: seq<DiskResource>, r: seq<DiskResource>)
    requires disks != [] && r <= disks[1..]
    ensures [disks[0]] + r <= disks
    ensures r == disks[1..] ==> [disks[0]] + r == disks
  {
    assert disks == [disks[0]] + disks[1..];
  }

  /** The disks inserted by the loop are the given ones in order: a prefix of
      them, and all of them when the loop succeeds. */
  lemma {:induction false} DiskLoopInOrder(svc: Service, turn: (nat, DiskResource) -> Run, n: nat, zone: string, disks: seq<DiskResource>)
    requires TurnsInsertThenPoll(svc, zone, turn)
    ensures var run := DiskLoop(turn, n, zone, disks);
      DiskInserts(run.calls) <= disks &&
      (run.outcome == Pass ==> DiskInserts(run.calls) == disks)
    decreases |disks|
  {
    if disks != [] {
      var step := turn(n, disks[0]);
      assert InsertThenPolls(svc, n, zone, disks[0], step.calls);
      TurnInserts(svc, n, zone, disks[0], step.calls);
      if step.outcome == Pass {
        var rest := DiskLoop(turn, n + |step.calls|, zone, disks[1..]);
        DiskLoopInOrder(svc, turn, n + |step.calls|, zone, disks[1..]);
        assert DiskInserts(rest.calls) <= disks[1..];
        DiskInsertsAppend(step.calls, rest.calls);
        ConsPrefix(disks, DiskInserts(rest.calls));
      }
    }
  }


  /** In the requests `calls`, the first of which is request `n`, every disk
      insert but the first comes right after a poll whose reply was DONE
      without error. */
  predicate DoneBeforeInserts(svc: Service, n: nat, calls: seq<Call>)
  {
    forall p :: 0 < p < |calls| && calls[p].DiskInsert? ==>
      calls[p - 1].OperationGet? && Done(svc.operation(n + p - 1))
  }

  lemma DoneBeforeInsertsAppend(svc: Service, n: nat, a: seq<Call>, b: seq<Call>)
    requires DoneBeforeInserts(svc, n, a) && DoneBeforeInserts(svc, n + |a|, b)
    requires b != [] && b[0].DiskInsert? ==>
      a != [] && a[|a| - 1].OperationGet? && Done(svc.operation(n + |a| - 1))
    ensures DoneBeforeInserts(svc, n, a + b)
  {
    var c := a + b;
    forall p | 0 < p < |c| && c[p].DiskInsert?
      ensures c[p - 1].OperationGet? && Done(svc.operation(n + p - 1))
    {
      if p < |a| {
        assert c[p] == a[p] && c[p - 1] == a[p - 1];
      } else if p == |a| {
        assert c[p] == b[0] && c[p - 1] == a[|a| - 1];
      } else {
        assert c[p] == b[p - |a|] && c[p - 1] == b[p - |a| - 1];
      }
    }
  }

  /** Each disk's creation is polled to DONE before the next disk is inserted:
      the request just before every disk insert but the first is a poll whose
      reply was DONE without error. */
  lemma {:induction false} DiskLoopDoneBeforeNext(svc: Service, turn: (nat, DiskResource) -> Run, n: nat, zone: string, disks: seq<DiskResource>)
    requires TurnsInsertThenPoll(svc, zone, turn) && TurnsEndOnDone(svc, turn)
    ensures DoneBeforeInserts(svc, n, DiskLoop(turn, n, zone, disks).calls)
    decreases |disks|
  {
    if disks != [] {
      var step := turn(n, disks[0]);
      assert InsertThenPolls(svc, n, zone, disks[0], step.calls) && EndsOnDone(svc, n, step);
      assert DoneBeforeInserts(svc, n, step.calls);
      if step.outcome == Pass {
        var m := n + |step.calls|;
        var rest := DiskLoop(turn, m, zone, disks[1..]);
        DiskLoopDoneBeforeNext(svc, turn, m, zone, disks[1..]);
        DoneBeforeInsertsAppend(svc, n, step.calls, rest.calls);
      }
    }
  }

  /** In the requests `calls`, the first of which is request `n`, every poll
      fetches the operation that the nearest disk insert before it started:
      the first request is not a poll, and a poll follows either a poll of
      the same operation or the insert whose reply named that operation. */
  predicate PollsOwnInsert(svc: Service, n: nat, calls: seq<Call>)
  {
    (calls != [] ==> !calls[0].OperationGet?) &&
    forall p :: 0 < p < |calls| && calls[p].OperationGet? ==>
      (calls[p - 1].OperationGet? && calls[p - 1].operation == calls[p].operation) ||
      (calls[p - 1].DiskInsert? && svc.mutation(n + p - 1) == Success(calls[p].operation))
  }

  lemma PollsOwnInsertAppend(svc: Service, n: nat, a: seq<Call>, b: seq<Call>)
    requires PollsOwnInsert(svc, n, a) && PollsOwnInsert(svc, n + |a|, b)
    ensures PollsOwnInsert(svc, n, a + b)
  {
    var c := a + b;
    if a == [] {
      assert c == b;
    } else {
      assert c[0] == a[0];
    }
    if b != [] {
      assert c[|a|] == b[0];
    }
    forall p | 0 < p < |c| && p != |a| && c[p].OperationGet?
      ensures (c[p - 1].OperationGet? && c[p - 1].operation == c[p].operation) ||
        (c[p - 1].DiskInsert? && svc.mutation(n + p - 1) == Success(c[p].operation))
    {
      if p < |a| {
        assert c[p] == a[p] && c[p - 1] == a[p - 1];
      } else {
        assert c[p] == b[p - |a|] && c[p - 1] == b[p - |a| - 1];
      }
    }
  }

  /** A well-shaped turn polls only the operation its own insert started. */
  lemma TurnPollsOwnInsert(svc: Service, m: nat, zone: string, d: DiskResource, calls: seq<Call>)
    requires InsertThenPolls(svc, m, zone, d, calls)
    ensures PollsOwnInsert(svc, m, calls)
  {
    forall p | 0 < p < |calls| && calls[p].OperationGet?
      ensures (calls[p - 1].OperationGet? && calls[p - 1].operation == calls[p].operation) ||
        (calls[p - 1].DiskInsert? && svc.mutation(m + p - 1) == Success(calls[p].operation))
    {
      if p == 1 {
        assert calls[p - 1].DiskInsert?;
      } else {
        assert calls[p - 1] == calls[p];
      }
    }
  }

  /** Every poll of the disk loop fetches the operation of the disk insert
      just before its run of polls. */
  lemma {:induction false} DiskLoopPollsOwnInsert(svc: Service, turn: (nat, DiskResource) -> Run, n: nat, zone: string, disks: seq<DiskResource>)
    requires TurnsInsertThenPoll(svc, zone, turn)
    ensures PollsOwnInsert(svc, n, DiskLoop(turn, n, zone, disks).calls)
    decreases |disks|
  {
    if disks != [] {
      var step := turn(n, disks[0]);
      assert InsertThenPolls(svc, n, zone, disks[0], step.calls);
      TurnPollsOwnInsert(svc, n, zone, disks[0], step.calls);
      if step.outcome == Pass {
        var m := n + |step.calls|;
        var rest := DiskLoop(turn, m, zone, disks[1..]);
        DiskLoopPollsOwnInsert(svc, turn, m, zone, disks[1..]);
        PollsOwnInsertAppend(svc, n, step.calls, rest.calls);
      }
    }
  }

  /** A successful loop over at least one disk ends on a poll whose reply was
      DONE without error. */
  lemma {:induction false} DiskLoopEndsDone(svc: Service, turn: (nat, DiskResource) -> Run, n: nat, zone: string, disks: seq<DiskResource>)
    requires TurnsEndOnDone(svc, turn)
    requires disks != [] && DiskLoop(turn, n, zone, disks).outcome == Pass
    ensures var calls := DiskLoop(turn, n, zone, disks).calls;
      |calls| >= 2 && calls[|calls| - 1].OperationGet? && Done(svc.operation(n + |calls| - 1))
    decreases |disks|
  {
    var step := turn(n, disks[0]);
    assert EndsOnDone(svc, n, step);
    var m := n + |step.calls|;
    var rest := DiskLoop(turn, m, zone, disks[1..]);
    var calls := step.calls + rest.calls;
    if disks[1..] != [] {
      DiskLoopEndsDone(svc, turn, m, zone, disks[1..]);
      assert calls[|calls| - 1] == rest.calls[|rest.calls| - 1];
    } else {
      assert calls[|calls| - 1] == step.calls[|step.calls| - 1];
    }
  }

  /** The properties of the disk loop of `CreateInstance`: only disk inserts
      and zone polls; never a validation failure or a panic; on success one
      attached entry per disk, in order; the disks inserted are a prefix of
      the given ones, all of them on success; every insert after the first
      follows a poll that saw DONE; and a successful loop over some disk ends
      on such a poll. */
  lemma CreateDisksShape(svc: Service, n: nat, zone: string, disks: seq<DiskResource>)
    ensures InsertsAndPolls(zone, CreateDisks(svc, n, zone, disks).calls)
    ensures PollsOwnInsert(svc, n, CreateDisks(svc, n, zone, disks).calls)
    ensures ServiceOutcome(CreateDisks(svc, n, zone, disks).outcome)
    ensures var run := CreateDisks(svc, n, zone, disks);
      run.outcome == Pass ==>
        |run.attached| == |disks| &&
        forall k :: 0 <= k < |disks| ==> run.attached[k] == DataDisk(zone, disks[k].name)
    ensures var run := CreateDisks(svc, n, zone, disks);
      DiskInserts(run.calls) <= disks &&
      (run.outcome == Pass ==> DiskInserts(run.calls) == disks)
    ensures DoneBeforeInserts(svc, n, CreateDisks(svc, n, zone, disks).calls)
    ensures var calls := CreateDisks(svc, n, zone, disks).calls;
      CreateDisks(svc, n, zone, disks).outcome == Pass && disks != [] ==>
        |calls| >= 2 && calls[|calls| - 1].OperationGet? && Done(svc.operation(n + |calls| - 1))
  {
    var turn := InsertDisk(svc, zone);
    InsertDiskTurns(svc, zone);
    DiskLoopCalls(svc, turn, n, zone, disks);
    DiskLoopPollsOwnInsert(svc, turn, n, zone, disks);
    DiskLoopOutcome(turn, n, zone, disks);
    DiskLoopAttached(turn, n, zone, disks);
    DiskLoopInOrder(svc, turn, n, zone, disks);
    DiskLoopDoneBeforeNext(svc, turn, n, zone, disks);
    if CreateDisks(svc, n, zone, disks).outcome == Pass && disks != [] {
      DiskLoopEndsDone(svc, turn, n, zone, disks);
    }
  }

  /** The disk loop after its first `i` turns have issued `calls` and
      attached `attached`: the whole loop is those turns followed by the loop
      over the remaining disks. */
  ghost predicate LoopAfter(turn: (nat, DiskResource) -> Run, n: nat, zone: string, disks: seq<DiskResource>,
                            i: nat, calls: seq<Call>, attached: seq<AttachedDisk>)
    requires i <= |disks|
  {
    var rest := DiskLoop(turn, n + |calls|, zone, disks[i..]);
    DiskLoop(turn, n, zone, disks) == DiskRun(rest.outcome, calls + rest.calls, attached + rest.attached)
  }

  /** A successful turn `i` extends the turns done so far by its requests and
      the attached entry of its disk. */
  lemma DiskLoopAdvance(turn: (nat, DiskResource) -> Run, n: nat, zone: string, disks: seq<DiskResource>,
                        i: nat, calls: seq<Call>, attached: seq<AttachedDisk>, step: seq<Call>)
    requires i < |disks| && LoopAfter(turn, n, zone, disks, i, calls, attached)
    requires turn(n + |calls|, disks[i]) == Run(Pass, step)
    ensures LoopAfter(turn, n, zone, disks, i + 1, calls + step, attached + [DataDisk(zone, disks[i].name)])
  {
    var tail := disks[i..];
    assert tail[0] == disks[i] && tail[1..] == disks[i + 1..];
    var rest := DiskLoop(turn, n + |calls| + |step|, zone, disks[i + 1..]);
    DiskLoopNext(turn, n + |calls|, zone, tail, step);
    AppendAssoc(calls, step, rest.calls);
    AppendAssoc(attached, [DataDisk(zone, disks[i].name)], rest.attached);
  }

  /** A failing turn `i` ends the loop: its requests are the last ones and
      nothing more is attached. */
  lemma DiskLoopHalt(turn: (nat, DiskResource) -> Run, n: nat, zone: string, disks: seq<DiskResource>,
                     i: nat, calls: seq<Call>, attached: seq<AttachedDisk>)
    requires i < |disks| && LoopAfter(turn, n, zone, disks, i, calls, attached)
    requires turn(n + |calls|, disks[i]).outcome != Pass
    ensures var step := turn(n + |calls|, disks[i]);
      DiskLoop(turn, n, zone, disks) == DiskRun(step.outcome, calls + step.calls, attached)
  {
    var tail := disks[i..];
    assert tail[0] == disks[i];
    DiskLoopStop(turn, n + |calls|, zone, tail);
    assert attached + [] == attached;
  }

  /** Once every turn has run, the loop succeeded with what they issued. */
  lemma DiskLoopFinish(turn: (nat, DiskResource) -> Run, n: nat, zone: string, disks: seq<DiskResource>,
                       calls: seq<Call>, attached: seq<AttachedDisk>)
    requires LoopAfter(turn, n, zone, disks, |disks|, calls, attached)
    ensures DiskLoop(turn, n, zone, disks) == DiskRun(Pass, calls, attached)
  {
    assert disks[|disks|..] == [];
    assert calls + [] == calls && attached + [] == attached;
  }

  /** The disk object of data disk `i`: its path or `<instance>-disk-<i>` as
      name, its size converted to GB or 1 GB when unset, and the
      UEFI-compatible guest-OS feature when a vTPM is requested. */
  method NewDiskObject(c: Client, req: InstanceRequest, i: nat) returns (diskObj: DiskResource)
    requires i < |req.disks|
    ensures diskObj == AllDiskDescriptors(c, req)[i]
  {
    var disk := req.disks[i];
    var diskName: string;
    if disk.path != "" {
      diskName := disk.path;
    } else {
      diskName := req.name + "-disk-" + DecimalString(i);
    }
    var diskSizeGb: int;
    if disk.size == 0 {
      diskSizeGb := 1;
    } else {
      diskSizeGb := c.convertMBtoGB(disk.size);
    }
    diskObj := DiskResource(diskName, diskSizeGb, []);
    if req.vtpm {
      diskObj := diskObj.(guestOsFeatures := [Some(GuestOsFeature(UefiCompatibleFeature))]);
    }
  }

  /** The data-disk loop of `CreateInstance`, whose first request is request
      `n`: name and size each disk, insert it, poll its zone operation to
      completion, then append its attached-disk entry. */
  method CreateDataDisks(c: Client, svc: Service, n: nat, req: InstanceRequest)
    returns (r: Outcome, calls: seq<Call>, attached: seq<AttachedDisk>)
    ensures DiskRun(r, calls, attached) == CreateDisks(svc, n, req.zone, AllDiskDescriptors(c, req))
  {
    ghost var all := AllDiskDescriptors(c, req);
    ghost var turn := InsertDisk(svc, req.zone);
    calls := [];
    attached := [];
    var i := 0;
    while i < |req.disks|
      invariant 0 <= i <= |req.disks|
      invariant LoopAfter(turn, n, req.zone, all, i, calls, attached)
    {
      var diskObj := NewDiskObject(c, req, i);
      var step;
      r, step := MutateAndPollOperation(svc, n + |calls|, DiskInsert(req.zone, diskObj), Zone(req.zone));
      if r != Pass {
        DiskLoopHalt(turn, n, req.zone, all, i, calls, attached);
        calls := calls + step;
        return;
      }
      DiskLoopAdvance(turn, n, req.zone, all, i, calls, attached, step);
      calls := calls + step;
      attached := attached + [DataDisk(req.zone, diskObj.name)];
      i := i + 1;
    }
    DiskLoopFinish(turn, n, req.zone, all, calls, attached);
    r := Pass;
  }
}
