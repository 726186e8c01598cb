/** The feature-compatibility check that `CreateInstance` runs on the image it
    fetched, before it creates any disk or instance. */
module Validator {
  import opened Cloud
  import opened Outcomes
  import opened Text

  /** Some non-nil guest-OS feature of the image is `UEFI_COMPATIBLE`. */
  predicate HasUefiFeature(features: seq<Option<GuestOsFeature>>)
  {
    exists i :: 0 <= i < |features| && features[i] == Some(GuestOsFeature(UefiCompatibleFeature))
  }

  /** Some licence ends in the vmx licence path; the service returns licences
      as fully qualified URLs, so this is a suffix match. */
  predicate HasVmxLicense(licenses: seq<string>)
  {
    exists i :: 0 <= i < |licenses| && HasSuffix(licenses[i], VmxImageLicence)
  }

  /** Licence paths as the service returns them: each one behind the same
      host-and-version prefix. */
  function Qualified(host: string, licenses: seq<string>): seq<string>
  {
    seq(|licenses|, i requires 0 <= i < |licenses| => host + licenses[i])
  }

  /** Prefixing every licence with a host and version keeps the vmx licence
      recognisable, which is why the check matches on the suffix. */
  lemma QualifiedKeepsVmxLicense(host: string, licenses: seq<string>)
    requires HasVmxLicense(licenses)
    ensures HasVmxLicense(Qualified(host, licenses))
  {
    var i :| 0 <= i < |licenses| && HasSuffix(licenses[i], VmxImageLicence);
    SuffixSurvivesPrefix(host, licenses[i], VmxImageLicence);
    assert Qualified(host, licenses)[i] == host + licenses[i];
  }

  /** The scan that sets `uefiCompatible`: stop at the first non-nil
      `UEFI_COMPATIBLE` feature. */
  method ScanGuestOsFeatures(features: seq<Option<GuestOsFeature>>) returns (uefiCompatible: bool)
    ensures uefiCompatible <==> HasUefiFeature(features)
  {
    uefiCompatible := false;
    for i := 0 to |features|
      invariant !uefiCompatible
      invariant forall j :: 0 <= j < i ==> features[j] != Some(GuestOsFeature(UefiCompatibleFeature))
    {
      var feature := features[i];
      if feature.Some? && feature.value.featureType == UefiCompatibleFeature {
        uefiCompatible := true;
        break;
      }
    }
  }

  /** The scan that sets `vmxLicense`: stop at the first licence that ends in
      the vmx licence path. */
  method ScanLicenses(licenses: seq<string>) returns (vmxLicense: bool)
    ensures vmxLicense <==> HasVmxLicense(licenses)
  {
    vmxLicense := false;
    for i := 0 to |licenses|
      invariant !vmxLicense
      invariant forall j :: 0 <= j < i ==> !HasSuffix(licenses[j], VmxImageLicence)
    {
      if HasSuffix(licenses[i], VmxImageLicence) {
        vmxLicense := true;
        break;
      }
    }
  }

  /** The verdict of the two checks on one image snapshot; the vTPM check
      comes first. */
  function CheckImageFeatures(image: Image, nested: bool, vtpm: bool): (r: Outcome)
    ensures r == Pass <==>
      (vtpm ==> HasUefiFeature(image.guestOsFeatures)) && (nested ==> HasVmxLicense(image.licenses))
    ensures r == Fail(VtpmUnsupported) <==> vtpm && !HasUefiFeature(image.guestOsFeatures)
    ensures r == Fail(NestedUnsupported) <==>
      nested && !HasVmxLicense(image.licenses) && !(vtpm && !HasUefiFeature(image.guestOsFeatures))
  {
    if vtpm && !HasUefiFeature(image.guestOsFeatures) then Fail(VtpmUnsupported)
    else if nested && !HasVmxLicense(image.licenses) then Fail(NestedUnsupported)
    else Pass
  }

  /** The check as `CreateInstance` runs it: scan the features, refuse a
      vTPM without UEFI support, then scan the licences and refuse nested
      virtualisation without the vmx licence. */
  method CheckImage(image: Image, nested: bool, vtpm: bool) returns (r: Outcome)
    ensures r == CheckImageFeatures(image, nested, vtpm)
  {
    var uefiCompatible := ScanGuestOsFeatures(image.guestOsFeatures);
    if vtpm && !uefiCompatible {
      return Fail(VtpmUnsupported);
    }
    var vmxLicense := ScanLicenses(image.licenses);
    if nested && !vmxLicense {
      return Fail(NestedUnsupported);
    }
    r := Pass;
  }
}
