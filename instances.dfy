/** Instance provisioning: `CreateInstance` and `DeleteInstance`. */
module Instances {
  import opened Cloud
  import opened Outcomes
  import opened Poller
  import opened Validator
  import opened Disks

  /** The boot disk entry: auto-deleted, initialised from the image. */
  function BootDisk(image: string): AttachedDisk
  {
    AttachedDisk(true, true, Some("global/images/" + image), "")
  }

  /** The value of the `ssh-keys` metadata item for an authorized-key text. */
  function SshKeysValue(key: string): string
  {
    "moby:" + key + " moby"
  }

  /** The instance object `CreateInstance` inserts. */
  function InstanceDescriptor(req: InstanceRequest, key: string, disks: seq<AttachedDisk>): Instance
  {
    Instance(
      "zones/" + req.zone + "/machineTypes/" + req.machineType,
      req.name,
      disks,
      [NetworkInterface("global/networks/default", [AccessConfig("ONE_TO_ONE_NAT")])],
      [MetadataItem("serial-port-enable", Some("1")),
       MetadataItem("ssh-keys", Some(SshKeysValue(key))),
       MetadataItem("user-data", req.data)],
      if req.nested then "Intel Haswell" else "",
      if req.vtpm then Some(ShieldedInstanceConfig(true)) else None)
  }

  /** What `CreateInstance` promises of the instance it inserts, given the
      authorized-key text `key`: it has the requested name; its disks are the
      boot disk followed by one entry per data disk in request order, every
      one auto-deleted and only the first booting; the CPU platform is set
      exactly when nested virtualisation is requested, and the vTPM exactly
      when a vTPM is; the ssh-keys item carries the key. */
  predicate ProvisionedInstance(req: InstanceRequest, key: string, inst: Instance)
  {
    && inst.name == req.name
    && |inst.disks| == 1 + |req.disks|
    && inst.disks[0] == BootDisk(req.image)
    && (forall k :: 0 <= k < |req.disks| ==> inst.disks[k + 1] == DataDisk(req.zone, DiskName(req.name, req.disks[k], k)))
    && (forall k :: 0 <= k < |inst.disks| ==> inst.disks[k].autoDelete && (inst.disks[k].boot <==> k == 0))
    && (inst.minCpuPlatform == "Intel Haswell" <==> req.nested)
    && (inst.shieldedInstanceConfig == Some(ShieldedInstanceConfig(true)) <==> req.vtpm)
    && |inst.metadata| == 3
    && inst.metadata[1] == MetadataItem("ssh-keys", Some(SshKeysValue(key)))
  }

  /** The instance object built from the boot disk followed by the attached
      entries of the data disks, in request order, is the promised one. */
  lemma InstanceDescriptorShape(c: Client, req: InstanceRequest, key: string, attached: seq<AttachedDisk>)
    requires |attached| == |req.disks|
    requires forall k :: 0 <= k < |req.disks| ==> attached[k] == DataDisk(req.zone, AllDiskDescriptors(c, req)[k].name)
    ensures ProvisionedInstance(req, key, InstanceDescriptor(req, key, [BootDisk(req.image)] + attached))
  {
    var disks := [BootDisk(req.image)] + attached;
    forall k | 0 <= k < |req.disks|
      ensures disks[k + 1] == DataDisk(req.zone, DiskName(req.name, req.disks[k], k))
    {
      assert disks[k + 1] == attached[k];
    }
    forall k | 0 <= k < |disks|
      ensures disks[k].autoDelete && (disks[k].boot <==> k == 0)
    {
      if k > 0 {
        assert disks[k] == attached[k - 1];
      }
    }
  }

  // ---------------------------------------------------------------------------
  // DeleteInstance

  /** `DeleteInstance` whose delete request is request `n`. */
  function DeleteInstanceRun(svc: Service, n: nat, instance: string, zone: string, wait: bool): Run
  {
    var call := InstanceDelete(zone, instance);
    match svc.mutation(n)
    case Failure(e) =>
      if IsNotFound(e) then Run(Pass, [call]) else Run(Fail(ServiceError(e)), [call])
    case Success(op) =>
      if wait then
        var p := Poll(svc, n + 1);
        Run(p.outcome, [call] + Repeat(OperationGet(Zone(zone), op), p.fetches))
      else Run(Pass, [call])
  }

  /** Deleting an instance issues the delete first and afterwards only
      fetches of the zone operation it started, one per poll attempt; it polls exactly when the
      delete started an operation and the caller asked to wait. A 404 is
      success, any other error is returned unchanged, a found instance without
      `wait` is success, and with `wait` the run ends as its poll does; it
      never ends in a validation failure or a panic. */
  lemma DeleteInstanceIdempotent(svc: Service, n: nat, instance: string, zone: string, wait: bool)
    ensures var run := DeleteInstanceRun(svc, n, instance, zone, wait);
      && |run.calls| >= 1 && run.calls[0] == InstanceDelete(zone, instance)
      && (forall i :: 1 <= i < |run.calls| ==>
            svc.mutation(n).Success? && run.calls[i] == OperationGet(Zone(zone), svc.mutation(n).value))
      && (|run.calls| > 1 <==> svc.mutation(n).Success? && wait)
      && (svc.mutation(n).Success? && wait ==> |run.calls| == 1 + Poll(svc, n + 1).fetches)
      && (svc.mutation(n).Failure? && IsNotFound(svc.mutation(n).error) ==> run.outcome == Pass)
      && (svc.mutation(n).Failure? && !IsNotFound(svc.mutation(n).error) ==>
            run.outcome == Fail(ServiceError(svc.mutation(n).error)))
      && (svc.mutation(n).Success? && !wait ==> run.outcome == Pass)
      && (svc.mutation(n).Success? && wait ==> run.outcome == Poll(svc, n + 1).outcome)
      && run.outcome != Panic && run.outcome != Fail(VtpmUnsupported) && run.outcome != Fail(NestedUnsupported)
  {
    PollOutcomeKinds(svc, n + 1);
    if svc.mutation(n).Success? && wait {
      PollCharacterized(svc, n + 1);
      RepeatAll(OperationGet(Zone(zone), svc.mutation(n).value), Poll(svc, n + 1).fetches);
    }
  }

  /** `DeleteInstance`: issue the delete (request `n`), treat a 404 as done,
      otherwise poll the zone operation when `wait` is set. */
  method DeleteInstance(svc: Service, n: nat, instance: string, zone: string, wait: bool)
    returns (r: Outcome, calls: seq<Call>)
    ensures var run := DeleteInstanceRun(svc, n, instance, zone, wait);
      r == run.outcome && calls == run.calls
  {
    var notFound := false;
    var op := svc.mutation(n);
    calls := [InstanceDelete(zone, instance)];
    if op.Failure? {
      if !op.error.ApiError? {
        r := Fail(ServiceError(op.error));
        return;
      }
      if op.error.code != 404 {
        r := Fail(ServiceError(op.error));
        return;
      }
      notFound := true;
    }
    if !notFound && wait {
      var polls;
      r, polls := PollOperationStatus(svc, n + 1, Zone(zone), op.value);
      calls := calls + polls;
      if r != Pass {
        return;
      }
    }
    r := Pass;
  }

  // ---------------------------------------------------------------------------
  // CreateInstance

  /** The optional delete that `replace` performs, always waiting. */
  function ReplaceRun(svc: Service, n: nat, req: InstanceRequest, replace: bool): Run
  {
    if replace then DeleteInstanceRun(svc, n, req.name, req.zone, true) else Run(Pass, [])
  }

  /** Disks, then the instance insert, whose reply is not polled. */
  function ProvisionRun(c: Client, svc: Service, m: nat, req: InstanceRequest, key: string): Run
  {
    var disks := CreateDisks(svc, m, req.zone, AllDiskDescriptors(c, req));
    if disks.outcome != Pass then Run(disks.outcome, disks.calls)
    else
      var insert := InstanceInsert(req.zone, InstanceDescriptor(req, key, [BootDisk(req.image)] + disks.attached));
      match svc.mutation(m + |disks.calls|)
      case Failure(e) => Run(Fail(ServiceError(e)), disks.calls + [insert])
      case Success(_) => Run(Pass, disks.calls + [insert])
  }

  /** From the key conversion on: fetch the image, check it, provision. */
  function ValidateAndProvisionRun(c: Client, svc: Service, m: nat, req: InstanceRequest): Run
  {
    match c.sshPublicKey
    case Failure(e) => Run(Fail(ServiceError(e)), [])
    case Success(key) =>
      var get := ImageGet(req.image);
      match svc.image(m)
      case Failure(e) => Run(Fail(ServiceError(e)), [get])
      case Success(img) =>
        var check := CheckImageFeatures(img, req.nested, req.vtpm);
        if check != Pass then Run(check, [get])
        else
          var made := ProvisionRun(c, svc, m + 1, req, key);
          Run(made.outcome, [get] + made.calls)
  }

  /** `CreateInstance` whose first request is request `n`. */
  function CreateInstanceRun(c: Client, svc: Service, n: nat, req: InstanceRequest, replace: bool): Run
  {
    var del := ReplaceRun(svc, n, req, replace);
    if del.outcome != Pass then del
    else
      var rest := ValidateAndProvisionRun(c, svc, n + |del.calls|, req);
      Run(rest.outcome, del.calls + rest.calls)
  }

  /** The image the run fetched and checked, if it got that far. */
  function CheckedImage(c: Client, svc: Service, n: nat, req: InstanceRequest, replace: bool): Option<Image>
  {
    var del := ReplaceRun(svc, n, req, replace);
    if del.outcome == Pass && c.sshPublicKey.Success? && svc.image(n + |del.calls|).Success?
    then Some(svc.image(n + |del.calls|).value)
    else None
  }

  /** Requests among which the only instance insert, if any, is the last. */
  predicate InsertedLast(calls: seq<Call>)
  {
    forall p :: 0 <= p < |calls| && calls[p].InstanceInsert? ==> p == |calls| - 1
  }

  /** Requests without any disk or instance insert. */
  predicate NoInserts(calls: seq<Call>)
  {
    forall p :: 0 <= p < |calls| ==> !calls[p].DiskInsert? && !calls[p].InstanceInsert?
  }

  lemma InsertedLastAppend(a: seq<Call>, b: seq<Call>)
    requires NoInserts(a) && InsertedLast(b)
    ensures InsertedLast(a + b)
  {
    forall p | 0 <= p < |a| ensures !(a + b)[p].InstanceInsert? {
      assert (a + b)[p] == a[p];
    }
    forall p | |a| <= p < |a + b| ensures (a + b)[p] == b[p - |a|] {
    }
  }

  lemma NoInsertsAppend(a: seq<Call>, b: seq<Call>)
    requires NoInserts(a) && NoInserts(b)
    ensures NoInserts(a + b)
  {
    forall p | 0 <= p < |a + b| ensures !(a + b)[p].DiskInsert? && !(a + b)[p].InstanceInsert? {
      if p < |a| {
        assert (a + b)[p] == a[p];
      } else {
        assert (a + b)[p] == b[p - |a|];
      }
    }
  }

  /** The optional delete issues no inserts and never fails on validation or
      panics. */
  lemma ReplaceShape(svc: Service, n: nat, req: InstanceRequest, replace: bool)
    ensures NoInserts(ReplaceRun(svc, n, req, replace).calls)
    ensures ServiceOutcome(ReplaceRun(svc, n, req, replace).outcome)
  {
    DeleteInstanceIdempotent(svc, n, req.name, req.zone, true);
  }

  /** The provisioning from request `m` on: the disk loop, then the
      instance insert. Its only instance insert is its last request; it never
      fails on validation or panics; and on success it has inserted every
      requested disk in order and its last request inserts the instance built
      from the boot disk and the disks' attached entries. */
  lemma ProvisionShape(c: Client, svc: Service, m: nat, req: InstanceRequest, key: string)
    ensures InsertedLast(ProvisionRun(c, svc, m, req, key).calls)
    ensures ServiceOutcome(ProvisionRun(c, svc, m, req, key).outcome)
    ensures var made := ProvisionRun(c, svc, m, req, key);
      var disks := CreateDisks(svc, m, req.zone, AllDiskDescriptors(c, req));
      made.outcome == Pass ==>
        && disks.outcome == Pass
        && DiskInserts(made.calls) == AllDiskDescriptors(c, req)
        && |made.calls| >= 1
        && made.calls[|made.calls| - 1]
             == InstanceInsert(req.zone, InstanceDescriptor(req, key, [BootDisk(req.image)] + disks.attached))
  {
    var all := AllDiskDescriptors(c, req);
    var disks := CreateDisks(svc, m, req.zone, all);
    var made := ProvisionRun(c, svc, m, req, key);
    assert ServiceOutcome(disks.outcome)
      && (disks.outcome == Pass ==> DiskInserts(disks.calls) == all)
      && forall p :: 0 <= p < |disks.calls| ==> !disks.calls[p].InstanceInsert?
    by {
      CreateDisksShape(svc, m, req.zone, all);
    }
    if disks.outcome == Pass {
      var insert := InstanceInsert(req.zone, InstanceDescriptor(req, key, [BootDisk(req.image)] + disks.attached));
      assert made.calls == disks.calls + [insert];
      forall p | 0 <= p < |disks.calls| ensures !made.calls[p].InstanceInsert? {
        assert made.calls[p] == disks.calls[p];
      }
      DiskInsertsAppend(disks.calls, [insert]);
      assert DiskInserts([insert]) == [];
    }
  }

  /** Before provisioning, with the image fetch as request `m`: a failed key
      conversion ends the run with that error before any request; a failed
      image fetch ends it with that error right after the fetch; and a
      fetched image that fails the feature check ends it with the check's
      failure right after the fetch. */
  lemma ValidateStops(c: Client, svc: Service, m: nat, req: InstanceRequest)
    ensures c.sshPublicKey.Failure? ==>
      ValidateAndProvisionRun(c, svc, m, req) == Run(Fail(ServiceError(c.sshPublicKey.error)), [])
    ensures c.sshPublicKey.Success? && svc.image(m).Failure? ==>
      ValidateAndProvisionRun(c, svc, m, req) == Run(Fail(ServiceError(svc.image(m).error)), [ImageGet(req.image)])
    ensures c.sshPublicKey.Success? && svc.image(m).Success? ==>
      var check := CheckImageFeatures(svc.image(m).value, req.nested, req.vtpm);
      check != Pass ==> ValidateAndProvisionRun(c, svc, m, req) == Run(check, [ImageGet(req.image)])
  {
  }

  /** From the key conversion on, with the image fetch as request `m`, once
      the fetched image has passed the check: its only instance insert is its
      last request, and it never fails on validation or panics. On success it
      has inserted every requested disk in order and ends on the insert of
      the instance built from the boot disk and the disks' attached
      entries. */
  lemma ValidateAndProvisionShape(c: Client, svc: Service, m: nat, req: InstanceRequest)
    ensures InsertedLast(ValidateAndProvisionRun(c, svc, m, req).calls)
    ensures c.sshPublicKey.Success? && svc.image(m).Success?
            && CheckImageFeatures(svc.image(m).value, req.nested, req.vtpm) == Pass
            ==> ServiceOutcome(ValidateAndProvisionRun(c, svc, m, req).outcome)
    ensures var v := ValidateAndProvisionRun(c, svc, m, req);
      var disks := CreateDisks(svc, m + 1, req.zone, AllDiskDescriptors(c, req));
      v.outcome == Pass ==>
        && c.sshPublicKey.Success?
        && disks.outcome == Pass
        && DiskInserts(v.calls) == AllDiskDescriptors(c, req)
        && |v.calls| >= 1
        && v.calls[|v.calls| - 1]
             == InstanceInsert(req.zone, InstanceDescriptor(req, c.sshPublicKey.value, [BootDisk(req.image)] + disks.attached))
  {
    if c.sshPublicKey.Success? && svc.image(m).Success?
       && CheckImageFeatures(svc.image(m).value, req.nested, req.vtpm) == Pass
    {
      var key := c.sshPublicKey.value;
      var get := ImageGet(req.image);
      var made := ProvisionRun(c, svc, m + 1, req, key);
      ValidateSteps(c, svc, m, req);
      ProvisionShape(c, svc, m + 1, req, key);
      assert NoInserts([get]);
      InsertedLastAppend([get], made.calls);
      if made.outcome == Pass {
        assert ([get] + made.calls)[|[get] + made.calls| - 1] == made.calls[|made.calls| - 1];
        DiskInsertsAppend([get], made.calls);
        assert DiskInserts([get]) == [];
      }
    }
  }

  /** On success, the validation and provisioning ends on the insert of the
      promised instance. */
  lemma ValidateAndProvisionInstance(c: Client, svc: Service, m: nat, req: InstanceRequest)
    ensures var v := ValidateAndProvisionRun(c, svc, m, req);
      v.outcome == Pass ==>
        && c.sshPublicKey.Success?
        && |v.calls| >= 1 && v.calls[|v.calls| - 1].InstanceInsert?
        && ProvisionedInstance(req, c.sshPublicKey.value, v.calls[|v.calls| - 1].instance)
  {
    var v := ValidateAndProvisionRun(c, svc, m, req);
    ValidateAndProvisionShape(c, svc, m, req);
    if v.outcome == Pass {
      var disks := CreateDisks(svc, m + 1, req.zone, AllDiskDescriptors(c, req));
      CreateDisksShape(svc, m + 1, req.zone, AllDiskDescriptors(c, req));
      InstanceDescriptorShape(c, req, c.sshPublicKey.value, disks.attached);
    }
  }

  /** The feature check decides the validation failures: once the image is
      fetched, the run fails with the vTPM error exactly when vTPM is requested
      and the image lacks UEFI support, and with the nested error exactly when
      nested is requested, the image lacks the vmx licence and the vTPM check
      passed. A run that never fetched an image fails with neither. A
      validation failure ends the run right after the image fetch, before any
      disk or instance insert. */
  lemma {:induction false} ValidationDecides(c: Client, svc: Service, n: nat, req: InstanceRequest, replace: bool)
    ensures var run := CreateInstanceRun(c, svc, n, req, replace);
      match CheckedImage(c, svc, n, req, replace)
      case Some(img) =>
        && (run.outcome == Fail(VtpmUnsupported) <==> req.vtpm && !HasUefiFeature(img.guestOsFeatures))
        && (run.outcome == Fail(NestedUnsupported) <==>
              req.nested && !HasVmxLicense(img.licenses) && !(req.vtpm && !HasUefiFeature(img.guestOsFeatures)))
      case None =>
        run.outcome != Fail(VtpmUnsupported) && run.outcome != Fail(NestedUnsupported)
    ensures var run := CreateInstanceRun(c, svc, n, req, replace);
      run.outcome == Fail(VtpmUnsupported) || run.outcome == Fail(NestedUnsupported) ==>
        && |run.calls| >= 1 && run.calls[|run.calls| - 1] == ImageGet(req.image)
        && NoInserts(run.calls)
  {
    var del := ReplaceRun(svc, n, req, replace);
    ReplaceShape(svc, n, req, replace);
    if del.outcome == Pass {
      var m := n + |del.calls|;
      CreateInstanceSteps(c, svc, n, req, replace, del.calls);
      ValidateStops(c, svc, m, req);
      ValidateAndProvisionShape(c, svc, m, req);
      if c.sshPublicKey.Success? && svc.image(m).Success?
         && CheckImageFeatures(svc.image(m).value, req.nested, req.vtpm) != Pass
      {
        assert NoInserts([ImageGet(req.image)]);
        NoInsertsAppend(del.calls, [ImageGet(req.image)]);
      }
    }
  }

  /** The instance insert is the last request of the run: it is never
      followed by a poll. On success the run has inserted every requested
      disk in request order, and the instance it inserts has the boot disk
      first and then one entry per data disk in request order, all
      auto-deleted; the CPU platform is set exactly when `nested` is, and
      vTPM exactly when `vtpm` is. */
  lemma {:induction false} InstanceInsertedLast(c: Client, svc: Service, n: nat, req: InstanceRequest, replace: bool)
    ensures InsertedLast(CreateInstanceRun(c, svc, n, req, replace).calls)
    ensures var run := CreateInstanceRun(c, svc, n, req, replace);
      run.outcome == Pass ==>
        && c.sshPublicKey.Success?
        && DiskInserts(run.calls) == AllDiskDescriptors(c, req)
        && |run.calls| >= 1 && run.calls[|run.calls| - 1].InstanceInsert?
        && ProvisionedInstance(req, c.sshPublicKey.value, run.calls[|run.calls| - 1].instance)
  {
    var del := ReplaceRun(svc, n, req, replace);
    ReplaceShape(svc, n, req, replace);
    if del.outcome == Pass {
      var m := n + |del.calls|;
      var v := ValidateAndProvisionRun(c, svc, m, req);
      CreateInstanceSteps(c, svc, n, req, replace, del.calls);
      ValidateAndProvisionShape(c, svc, m, req);
      InsertedLastAppend(del.calls, v.calls);
      ValidateAndProvisionInstance(c, svc, m, req);
      if v.outcome == Pass {
        assert (del.calls + v.calls)[|del.calls + v.calls| - 1] == v.calls[|v.calls| - 1];
        DiskInsertsNone(del.calls);
        DiskInsertsAppend(del.calls, v.calls);
      }
    }
  }

  /** A request of the creation proper: the image fetch, a disk insert or
      the instance insert. */
  predicate CreationCall(call: Call)
  {
    call.ImageGet? || call.DiskInsert? || call.InstanceInsert?
  }

  /** With `replace`, the run starts with the delete of the instance, waits
      for it (one fetch of the delete's zone operation per poll attempt
      before anything else), and makes no creation request unless that
      deletion ended in success, and then only after all of its requests. */
  lemma CreateInstanceDeletesFirst(c: Client, svc: Service, n: nat, req: InstanceRequest, replace: bool)
    ensures var run := CreateInstanceRun(c, svc, n, req, replace);
      var del := DeleteInstanceRun(svc, n, req.name, req.zone, true);
      replace ==>
        && |del.calls| <= |run.calls| && run.calls[..|del.calls|] == del.calls
        && run.calls[0] == InstanceDelete(req.zone, req.name)
        && (svc.mutation(n).Success? ==>
              && 1 + Poll(svc, n + 1).fetches <= |run.calls|
              && forall i :: 1 <= i <= Poll(svc, n + 1).fetches ==>
                   run.calls[i] == OperationGet(Zone(req.zone), svc.mutation(n).value))
        && forall i :: 0 <= i < |run.calls| && CreationCall(run.calls[i]) ==>
             del.outcome == Pass && |del.calls| <= i
  {
    if replace {
      var run := CreateInstanceRun(c, svc, n, req, replace);
      var del := DeleteInstanceRun(svc, n, req.name, req.zone, true);
      DeleteInstanceIdempotent(svc, n, req.name, req.zone, true);
      if del.outcome == Pass {
        CreateInstanceSteps(c, svc, n, req, replace, del.calls);
        assert run.calls[..|del.calls|] == del.calls;
        forall i | 0 <= i < |del.calls| ensures !CreationCall(run.calls[i]) {
          assert run.calls[i] == del.calls[i];
        }
      } else {
        assert run == del;
      }
    }
  }

  /** With `replace`, an instance that does not exist yet is no obstacle: the
      run is the 404'd delete followed by a plain creation. */
  lemma ReplaceToleratesMissingInstance(c: Client, svc: Service, n: nat, req: InstanceRequest)
    requires svc.mutation(n).Failure? && IsNotFound(svc.mutation(n).error)
    ensures var plain := CreateInstanceRun(c, svc, n + 1, req, false);
      CreateInstanceRun(c, svc, n, req, true) == Run(plain.outcome, [InstanceDelete(req.zone, req.name)] + plain.calls)
  {
    var rest := ValidateAndProvisionRun(c, svc, n + 1, req);
    assert [] + rest.calls == rest.calls;
  }

  /** Once the optional deletion has succeeded with requests `del`, the rest
      of `CreateInstance` is the validation and provisioning from the next
      request on. */
  lemma CreateInstanceSteps(c: Client, svc: Service, n: nat, req: InstanceRequest, replace: bool, del: seq<Call>)
    requires ReplaceRun(svc, n, req, replace) == Run(Pass, del)
    ensures var rest := ValidateAndProvisionRun(c, svc, n + |del|, req);
      CreateInstanceRun(c, svc, n, req, replace) == Run(rest.outcome, del + rest.calls)
  {
  }

  /** Once the image has passed the check, the rest of `CreateInstance` after
      the image fetch is the provisioning. */
  lemma ValidateSteps(c: Client, svc: Service, m: nat, req: InstanceRequest)
    requires c.sshPublicKey.Success? && svc.image(m).Success?
    requires CheckImageFeatures(svc.image(m).value, req.nested, req.vtpm) == Pass
    ensures var made := ProvisionRun(c, svc, m + 1, req, c.sshPublicKey.value);
      ValidateAndProvisionRun(c, svc, m, req) == Run(made.outcome, [ImageGet(req.image)] + made.calls)
  {
  }

  /** The instance object as `CreateInstance` fills it in. */
  method NewInstanceObject(req: InstanceRequest, key: string, instanceDisks: seq<AttachedDisk>)
    returns (instanceObj: Instance)
    ensures instanceObj == InstanceDescriptor(req, key, instanceDisks)
  {
    var enabled := "1";
    var sshKey := "moby:" + key + " moby";
    instanceObj := Instance(
      "zones/" + req.zone + "/machineTypes/" + req.machineType,
      req.name,
      instanceDisks,
      [NetworkInterface("global/networks/default", [AccessConfig("ONE_TO_ONE_NAT")])],
      [MetadataItem("serial-port-enable", Some(enabled)),
       MetadataItem("ssh-keys", Some(sshKey)),
       MetadataItem("user-data", req.data)],
      "",
      None);
    if req.nested {
      instanceObj := instanceObj.(minCpuPlatform := "Intel Haswell");
    }
    if req.vtpm {
      instanceObj := instanceObj.(shieldedInstanceConfig := Some(ShieldedInstanceConfig(true)));
    }
  }

  /** The part of `CreateInstance` after the image check, from request `m`
      on: create the data disks one by one, then insert the instance built
      from the boot disk and the disks' entries without polling its
      operation. */
  method ProvisionInstance(c: Client, svc: Service, m: nat, req: InstanceRequest, key: string)
    returns (r: Outcome, calls: seq<Call>)
    ensures Run(r, calls) == ProvisionRun(c, svc, m, req, key)
  {
    var instanceDisks := [BootDisk(req.image)];
    var dataDisks;
    r, calls, dataDisks := CreateDataDisks(c, svc, m, req);
    if r != Pass {
      return;
    }
    instanceDisks := instanceDisks + dataDisks;
    var instanceObj := NewInstanceObject(req, key, instanceDisks);
    var op := svc.mutation(m + |calls|);
    calls := calls + [InstanceInsert(req.zone, instanceObj)];
    if op.Failure? {
      r := Fail(ServiceError(op.error));
      return;
    }
    r := Pass;
  }

  /** From the key conversion on, with the image fetch as request `m`:
      convert the key, fetch and check the image, then provision. */
  method ValidateAndProvision(c: Client, svc: Service, m: nat, req: InstanceRequest)
    returns (r: Outcome, calls: seq<Call>)
    ensures Run(r, calls) == ValidateAndProvisionRun(c, svc, m, req)
  {
    ValidateStops(c, svc, m, req);
    calls := [];
    if c.sshPublicKey.Failure? {
      r := Fail(ServiceError(c.sshPublicKey.error));
      return;
    }
    var key := c.sshPublicKey.value;
    var fetched := svc.image(m);
    calls := calls + [ImageGet(req.image)];
    if fetched.Failure? {
      r := Fail(ServiceError(fetched.error));
      return;
    }
    r := CheckImage(fetched.value, req.nested, req.vtpm);
    if r != Pass {
      return;
    }
    ValidateSteps(c, svc, m, req);
    var made;
    r, made := ProvisionInstance(c, svc, m + 1, req, key);
    calls := calls + made;
  }

  /** `CreateInstance`: optionally delete the old instance and wait, fetch
      and check the image, create the data disks one by one, then insert the
      instance without waiting for its operation. */
  method CreateInstance(c: Client, svc: Service, n: nat, req: InstanceRequest, replace: bool)
    returns (r: Outcome, calls: seq<Call>)
    ensures Run(r, calls) == CreateInstanceRun(c, svc, n, req, replace)
  {
    calls := [];
    if replace {
      r, calls := DeleteInstance(svc, n, req.name, req.zone, true);
      if r != Pass {
        return;
      }
    }
    CreateInstanceSteps(c, svc, n, req, replace, calls);
    var rest;
    r, rest := ValidateAndProvision(c, svc, n + |calls|, req);
    calls := calls + rest;
  }
}
