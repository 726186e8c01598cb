/** The vocabulary of the compute service as gcp.go sees it: the resources it
    describes, the requests it issues and the replies it receives.

    The remote service is an oracle. A session issues requests one after
    another; the request at position `n` of the session's request log gets the
    reply `f(n)`, where `f` is the reply function for that kind of request.
    Because the log is strictly sequential, any behaviour of the real service on
    one run (however it depends on earlier requests) is described by some such
    functions, so a property proved for all `Service` values holds for every
    behaviour of the service. */
module Cloud {

  datatype Option<+T> = None | Some(value: T)

  datatype Result<+T, +E> = Success(value: T) | Failure(error: E)

  /** An error returned by a client call: either a `*googleapi.Error`
      carrying an HTTP status code, or any other error value. */
  datatype Error =
    | ApiError(code: int, message: string)
    | OtherError(message: string)

  /** The delete paths treat an API error with code 404 as "already gone". */
  predicate IsNotFound(e: Error)
  {
    e.ApiError? && e.code == 404
  }

  /** The two constants of gcp.go that the image and instance code share. */
  const UefiCompatibleFeature: string := "UEFI_COMPATIBLE"
  const VmxImageLicence: string := "projects/vm-options/global/licenses/enable-vmx"

  /** A long-running operation snapshot; `error` is its error payload, if any. */
  datatype Operation = Operation(name: string, status: string, error: Option<string>)

  datatype GuestOsFeature = GuestOsFeature(featureType: string)

  /** An image. Guest-OS features are pointers in the client library, so an
      entry may be nil (`None`). */
  datatype Image = Image(
    name: string,
    rawDiskSource: string,
    family: string,
    licenses: seq<string>,
    guestOsFeatures: seq<Option<GuestOsFeature>>)

  /** A disk resource as sent to `Disks.Insert`. */
  datatype DiskResource = DiskResource(
    name: string,
    sizeGb: int,
    guestOsFeatures: seq<Option<GuestOsFeature>>)

  /** A disk attached to an instance. `sourceImage` is the initialize-params
      source image (boot disk only); `source` is the existing disk's path
      ("" when unset). */
  datatype AttachedDisk = AttachedDisk(
    autoDelete: bool,
    boot: bool,
    sourceImage: Option<string>,
    source: string)

  datatype AccessConfig = AccessConfig(configType: string)

  datatype NetworkInterface = NetworkInterface(network: string, accessConfigs: seq<AccessConfig>)

  /** A metadata item; its value is a `*string`, so it may be nil. */
  datatype MetadataItem = MetadataItem(key: string, value: Option<string>)

  datatype ShieldedInstanceConfig = ShieldedInstanceConfig(enableVtpm: bool)

  /** An instance as sent to `Instances.Insert`; `minCpuPlatform` is "" when unset. */
  datatype Instance = Instance(
    machineType: string,
    name: string,
    disks: seq<AttachedDisk>,
    networkInterfaces: seq<NetworkInterface>,
    metadata: seq<MetadataItem>,
    minCpuPlatform: string,
    shieldedInstanceConfig: Option<ShieldedInstanceConfig>)

  /** One reply of `Instances.GetSerialPortOutput`. */
  datatype SerialPortOutput = SerialPortOutput(contents: string, start: int, next: int)

  /** Where an operation lives: the global or a zone-scoped operations endpoint. */
  datatype Scope = Global | Zone(zone: string)

  /** A request issued to the service, as recorded in the session's request log. */
  datatype Call =
    | ImageInsert(image: Image)
    | ImageDelete(imageName: string)
    | ImageGet(imageName: string)
    | DiskInsert(diskZone: string, disk: DiskResource)
    | InstanceInsert(instanceZone: string, instance: Instance)
    | InstanceDelete(instanceZone: string, instanceName: string)
    | OperationGet(scope: Scope, operation: string)
    | SerialPortGet(serialZone: string, serialInstance: string, start: int)

  /** One requested data disk: `path` names it ("" = unnamed), `size` is in
      megabytes (0 = unset). */
  datatype DiskConfig = DiskConfig(path: string, size: int)

  /** What `CreateInstance` reads from the client and from code outside this
      file. `sshPublicKey` is the authorized-key text of the session's public
      key, or the error of converting the key. `convertMBtoGB` is a helper
      defined elsewhere in the repository; it is left uninterpreted. */
  datatype Client = Client(sshPublicKey: Result<string, Error>, convertMBtoGB: int -> int)

  /** The arguments of `CreateInstance` other than `replace`; `data` is the
      user-data pointer. */
  datatype InstanceRequest = InstanceRequest(
    name: string,
    image: string,
    zone: string,
    machineType: string,
    disks: seq<DiskConfig>,
    data: Option<string>,
    nested: bool,
    vtpm: bool)

  /** The oracle: the reply to the request at each position of the log, one
      function per kind of reply. `mutation` answers every insert and delete
      with the name of the operation it started, or an error. */
  datatype Service = Service(
    mutation: nat -> Result<string, Error>,
    operation: nat -> Result<Operation, Error>,
    image: nat -> Result<Image, Error>,
    serial: nat -> Result<SerialPortOutput, Error>)

  /** `k` copies of one request: a run of identical polls. */
  function Repeat(c: Call, k: nat): (s: seq<Call>)
    ensures |s| == k
  {
    if k == 0 then [] else Repeat(c, k - 1) + [c]
  }

  /** Every element of a run of identical requests is that request. */
  lemma {:induction false} RepeatAll(c: Call, k: nat)
    ensures forall i :: 0 <= i < k ==> Repeat(c, k)[i] == c
  {
    if k > 0 {
      RepeatAll(c, k - 1);
    }
  }

  lemma AppendAssoc<T>(a: seq<T>, b: seq<T>, c: seq<T>)
    ensures (a + b) + c == a + (b + c)
  {
  }
}
