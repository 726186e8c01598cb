/** Image provisioning: `CreateImage` and `DeleteImage`. */
module Images {
  import opened Cloud
  import opened Outcomes
  import opened Poller
  import opened Validator
  import opened Text

  /** The image object `CreateImage` sends: `nested` adds the vmx licence,
      `uefi` adds the `UEFI_COMPATIBLE` guest-OS feature. */
  function ImageDescriptor(name: string, storageURL: string, family: string, nested: bool, uefi: bool): Image
  {
    Image(name, storageURL, family,
          if nested then [VmxImageLicence] else [],
          if uefi then [Some(GuestOsFeature(UefiCompatibleFeature))] else [])
  }

  /** Round trip between `CreateImage` and the instance-side check: an image
      built with flags (nested, uefi) is accepted for a request (wantNested,
      wantVtpm) exactly when each requested feature was built in. In
      particular `nested = uefi = true` is accepted for every request. */
  lemma {:induction false} CreatedImagePassesCheck(name: string, storageURL: string, family: string,
                                                   nested: bool, uefi: bool, wantNested: bool, wantVtpm: bool)
    ensures CheckImageFeatures(ImageDescriptor(name, storageURL, family, nested, uefi), wantNested, wantVtpm) == Pass
        <==> (wantNested ==> nested) && (wantVtpm ==> uefi)
  {
    var image := ImageDescriptor(name, storageURL, family, nested, uefi);
    if nested {
      SuffixOfItself(VmxImageLicence);
      assert HasSuffix(image.licenses[0], VmxImageLicence);
    }
    if uefi {
      assert image.guestOsFeatures[0] == Some(GuestOsFeature(UefiCompatibleFeature));
    }
  }

  /** The image as the service hands it back to `CreateInstance`: the same
      object with its licences written out as URLs under `host`. */
  function AsServed(host: string, image: Image): Image
  {
    image.(licenses := Qualified(host, image.licenses))
  }

  /** The round trip of `CreatedImagePassesCheck` also holds when the
      service returns the licences as fully qualified URLs. */
  lemma {:induction false} ServedImagePassesCheck(host: string, name: string, storageURL: string, family: string,
                                                  nested: bool, uefi: bool, wantNested: bool, wantVtpm: bool)
    ensures CheckImageFeatures(AsServed(host, ImageDescriptor(name, storageURL, family, nested, uefi)), wantNested, wantVtpm) == Pass
        <==> (wantNested ==> nested) && (wantVtpm ==> uefi)
  {
    var image := ImageDescriptor(name, storageURL, family, nested, uefi);
    var served := AsServed(host, image);
    if nested {
      SuffixOfItself(VmxImageLicence);
      assert HasVmxLicense(image.licenses) by {
        assert HasSuffix(image.licenses[0], VmxImageLicence);
      }
      QualifiedKeepsVmxLicense(host, image.licenses);
    } else {
      assert served.licenses == [];
    }
    if uefi {
      assert served.guestOsFeatures[0] == Some(GuestOsFeature(UefiCompatibleFeature));
    }
  }

  /** `DeleteImage` whose delete request is request `n`. A 404 counts as
      already deleted. */
  function DeleteImageRun(svc: Service, n: nat, name: string): Run
  {
    var call := ImageDelete(name);
    match svc.mutation(n)
    case Failure(e) =>
      if IsNotFound(e) then Run(Pass, [call]) else Run(Fail(ServiceError(e)), [call])
    case Success(op) =>
      var p := Poll(svc, n + 1);
      Run(p.outcome, [call] + Repeat(OperationGet(Global, op), p.fetches))
  }

  /** Deleting an image issues the delete first and afterwards only fetches
      of the global operation it started, one per poll attempt, and polls if
      and only if the delete
      started an operation. A 404 is success, any other error is returned
      unchanged, and a started deletion ends as its poll does. */
  lemma DeleteImageIdempotent(svc: Service, n: nat, name: string)
    ensures var run := DeleteImageRun(svc, n, name);
      && |run.calls| >= 1 && run.calls[0] == ImageDelete(name)
      && (forall i :: 1 <= i < |run.calls| ==>
            svc.mutation(n).Success? && run.calls[i] == OperationGet(Global, svc.mutation(n).value))
      && (|run.calls| > 1 <==> svc.mutation(n).Success?)
      && (svc.mutation(n).Success? ==> |run.calls| == 1 + Poll(svc, n + 1).fetches)
      && (svc.mutation(n).Failure? && IsNotFound(svc.mutation(n).error) ==> run.outcome == Pass)
      && (svc.mutation(n).Failure? && !IsNotFound(svc.mutation(n).error) ==>
            run.outcome == Fail(ServiceError(svc.mutation(n).error)))
      && (svc.mutation(n).Success? ==> run.outcome == Poll(svc, n + 1).outcome)
  {
    if svc.mutation(n).Success? {
      PollCharacterized(svc, n + 1);
      RepeatAll(OperationGet(Global, svc.mutation(n).value), Poll(svc, n + 1).fetches);
    }
  }

  /** `CreateImage` whose first request is request `n`. */
  function CreateImageRun(svc: Service, n: nat, name: string, storageURL: string, family: string,
                          nested: bool, uefi: bool, replace: bool): Run
  {
    var del := if replace then DeleteImageRun(svc, n, name) else Run(Pass, []);
    if del.outcome != Pass then del
    else
      var insert := MutateAndPoll(svc, n + |del.calls|, ImageInsert(ImageDescriptor(name, storageURL, family, nested, uefi)), Global);
      Run(insert.outcome, del.calls + insert.calls)
  }

  /** The image is inserted at most once, with the descriptor its flags ask
      for, and with `replace` only after the old image's deletion has been
      fully drained and succeeded. */
  lemma {:induction false} CreateImageInsertsAfterDelete(svc: Service, n: nat, name: string, storageURL: string,
                                                         family: string, nested: bool, uefi: bool, replace: bool)
    ensures var run := CreateImageRun(svc, n, name, storageURL, family, nested, uefi, replace);
      forall i :: 0 <= i < |run.calls| && run.calls[i].ImageInsert? ==>
        && run.calls[i].image == ImageDescriptor(name, storageURL, family, nested, uefi)
        && (!replace ==> i == 0)
        && (replace ==> DeleteImageRun(svc, n, name).outcome == Pass && run.calls[..i] == DeleteImageRun(svc, n, name).calls)
  {
    var run := CreateImageRun(svc, n, name, storageURL, family, nested, uefi, replace);
    var del := if replace then DeleteImageRun(svc, n, name) else Run(Pass, []);
    var image := ImageDescriptor(name, storageURL, family, nested, uefi);
    var insert := MutateAndPoll(svc, n + |del.calls|, ImageInsert(image), Global);
    if replace {
      DeleteImageIdempotent(svc, n, name);
    }
    MutateAndPollShape(svc, n + |del.calls|, ImageInsert(image), Global);
    forall i | 0 <= i < |run.calls| && run.calls[i].ImageInsert?
      ensures && run.calls[i].image == image
              && (!replace ==> i == 0)
              && (replace ==> del.outcome == Pass && run.calls[..i] == del.calls)
    {
      if del.outcome == Pass {
        assert run.calls == del.calls + insert.calls;
        assert i == |del.calls|;
        assert run.calls[..i] == del.calls;
      }
    }
  }

  /** With `replace`, an image that does not exist yet is no obstacle: the run
      is the 404'd delete followed by a plain creation. */
  lemma CreateImageReplaceMissing(svc: Service, n: nat, name: string, storageURL: string,
                                  family: string, nested: bool, uefi: bool)
    requires svc.mutation(n).Failure? && IsNotFound(svc.mutation(n).error)
    ensures var plain := CreateImageRun(svc, n + 1, name, storageURL, family, nested, uefi, false);
      CreateImageRun(svc, n, name, storageURL, family, nested, uefi, true)
        == Run(plain.outcome, [ImageDelete(name)] + plain.calls)
  {
    assert DeleteImageRun(svc, n, name) == Run(Pass, [ImageDelete(name)]);
    CreateImageSteps(svc, n, name, storageURL, family, nested, uefi, true, [ImageDelete(name)]);
    CreateImageSteps(svc, n + 1, name, storageURL, family, nested, uefi, false, []);
    var ins := MutateAndPoll(svc, n + 1, ImageInsert(ImageDescriptor(name, storageURL, family, nested, uefi)), Global);
    assert [] + ins.calls == ins.calls;
  }

  /** Once the optional deletion has succeeded with requests `del`, the rest
      of `CreateImage` is the insert of the image object and its poll. */
  lemma CreateImageSteps(svc: Service, n: nat, name: string, storageURL: string, family: string,
                         nested: bool, uefi: bool, replace: bool, del: seq<Call>)
    requires replace ==> DeleteImageRun(svc, n, name) == Run(Pass, del)
    requires !replace ==> del == []
    ensures var ins := MutateAndPoll(svc, n + |del|, ImageInsert(ImageDescriptor(name, storageURL, family, nested, uefi)), Global);
      CreateImageRun(svc, n, name, storageURL, family, nested, uefi, replace) == Run(ins.outcome, del + ins.calls)
  {
  }

  /** The image object as `CreateImage` fills it in, one flag at a time. */
  method NewImageObject(name: string, storageURL: string, family: string, nested: bool, uefi: bool)
    returns (imgObj: Image)
    ensures imgObj == ImageDescriptor(name, storageURL, family, nested, uefi)
  {
    imgObj := Image(name, storageURL, "", [], []);
    if family != "" {
      imgObj := imgObj.(family := family);
    }
    if nested {
      imgObj := imgObj.(licenses := [VmxImageLicence]);
    }
    if uefi {
      imgObj := imgObj.(guestOsFeatures := [Some(GuestOsFeature(UefiCompatibleFeature))]);
    }
  }

  /** `DeleteImage`: issue the delete (request `n`), treat a 404 as done,
      otherwise poll the global operation. `calls` are the requests issued. */
  method DeleteImage(svc: Service, n: nat, name: string) returns (r: Outcome, calls: seq<Call>)
    ensures var run := DeleteImageRun(svc, n, name);
      r == run.outcome && calls == run.calls
  {
    var notFound := false;
    var op := svc.mutation(n);
    calls := [ImageDelete(name)];
    if op.Failure? {
      if !op.error.ApiError? {
        r := Fail(ServiceError(op.error));
        return;
      }
      if op.error.code != 404 {
        r := Fail(ServiceError(op.error));
        return;
      }
      notFound := true;
    }
    if !notFound {
      var polls;
      r, polls := PollOperationStatus(svc, n + 1, Global, op.value);
      calls := calls + polls;
      if r != Pass {
        return;
      }
    }
    r := Pass;
  }

  /** `CreateImage`: optionally delete the old image, build the image object
      field by field from the flags, insert it and poll the global operation. */
  method CreateImage(svc: Service, n: nat, name: string, storageURL: string, family: string,
                     nested: bool, uefi: bool, replace: bool) returns (r: Outcome, calls: seq<Call>)
    ensures var run := CreateImageRun(svc, n, name, storageURL, family, nested, uefi, replace);
      r == run.outcome && calls == run.calls
  {
    calls := [];
    if replace {
      r, calls := DeleteImage(svc, n, name);
      if r != Pass {
        return;
      }
    }
    ghost var before := calls;
    var imgObj := NewImageObject(name, storageURL, family, nested, uefi);
    var insert;
    r, insert := MutateAndPollOperation(svc, n + |calls|, ImageInsert(imgObj), Global);
    calls := calls + insert;
    CreateImageSteps(svc, n, name, storageURL, family, nested, uefi, replace, before);
  }
}
