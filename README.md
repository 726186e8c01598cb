# linuxkit GCP provisioning, modelled in Dafny

This project models the decision logic of the Google Compute Engine client
that `linuxkit` uses to run images on GCP (`src/cmd/linuxkit/gcp.go`):

- the operation poller, which fetches the operation at most 300 times;
- the feature check run on a fetched image before any resource is created;
- `CreateImage` and `DeleteImage`;
- `CreateInstance`, which builds the disk and instance descriptors and
  creates the data disks one at a time before the instance;
- `DeleteInstance`, which treats a missing instance as already deleted;
- the serial-output loop of `GetInstanceSerialOutput`.

The compute service is replaced by an oracle (`Cloud.Service`). It holds one
reply function per kind of request (inserts and deletes, operation fetches,
image fetches, serial-port reads), and each function is indexed by the
request's position in the session's request log. An operation takes the
position `n` of its first request. It returns its outcome (`Pass`, a
`Fail` with one of the errors gcp.go distinguishes, or `Panic`) together
with the requests it issued, in order. Each imperative operation is a
method with the Go function's loops and flags. Its `ensures` equates it
with a specification function on the oracle (`Poll`, `DeleteImageRun`,
`CreateDisks`, `CreateInstanceRun`, `SerialOutputRun`, ...). The
properties are proved as lemmas about those functions, so they hold for
every possible sequence of replies.

Modules:

- `Text` (text.dfy): suffix matching and decimal rendering of integers.
- `Cloud` (cloud.dfy): the service objects, the request log and the oracle.
- `Outcomes` (outcome.dfy): the errors and the run results.
- `Poller` (poller.dfy): the two pollers and the insert-then-poll pattern.
- `Validator` (validator.dfy): the image feature check.
- `Images` (images.dfy): `CreateImage` and `DeleteImage`.
- `Disks` (disks.dfy): data-disk naming, sizing and the disk loop.
- `Instances` (instances.dfy): `CreateInstance` and `DeleteInstance`.
- `Serial` (serial.dfy): `GetInstanceSerialOutput`.

Two behaviours of the serial loop are modelled as the code has them:

- A 400 "not ready" reply is retried with no bound on the number of retries
  (gcp.go:369-372). The model therefore assumes a reply that ends the loop
  (the ghost parameter `stop`) rather than an attempt bound.
- The cursor becomes whatever next offset the service reports
  (gcp.go:381). Nothing makes it increase, and the model does not assume
  that it does.

## Model

| member | source | states |
|---|---|---|
| Text.DecimalRoundTrip | src/cmd/linuxkit/gcp.go:261 | the decimal rendering of a disk index parses back to the same index |
| Text.DecimalInjective | src/cmd/linuxkit/gcp.go:261 | distinct indices render to distinct decimal strings |
| Text.SuffixSurvivesPrefix | src/cmd/linuxkit/gcp.go:236-238 | a licence that ends in the vmx licence still does so behind any host/project prefix, so the suffix test accepts fully qualified URLs |
| Outcomes.PollerMessagesDistinct | src/cmd/linuxkit/gcp.go:532-542 | the fetch-error, operation-error and timeout messages are pairwise distinct whatever they wrap |
| Poller.Settle | src/cmd/linuxkit/gcp.go:530-539 | a fetch that ends the poll passes exactly when it saw DONE without error; it fails with the fetch error exactly when the fetch failed, and with the operation error exactly when the operation carried one |
| Poller.PollCharacterized | src/cmd/linuxkit/gcp.go:528-543 | a poll makes 1 to 300 fetches, all but the last saw a pending operation, and the last one decides the outcome or, if still pending, the poll times out after exactly 300 fetches |
| Poller.PollFromCharacterized | src/cmd/linuxkit/gcp.go:529-542 | the same for the rest of a poll from attempt `i`, with at most `300 - i` further fetches |
| Poller.PollStopsAt | src/cmd/linuxkit/gcp.go:530-539 | the first non-pending fetch within the budget ends the poll with its own verdict after exactly that many fetches |
| Poller.PollExhausts | src/cmd/linuxkit/gcp.go:529-542 | 300 pending fetches end in the timeout error after exactly 300 fetches |
| Poller.PollPassIff | src/cmd/linuxkit/gcp.go:528-543 | the poll succeeds if and only if some fetch within the budget sees DONE without error after only pending fetches |
| Poller.PollTimeoutIff | src/cmd/linuxkit/gcp.go:529-542 | the poll times out if and only if all 300 fetches were pending, and then it made exactly 300 fetches |
| Poller.PollPassEndsDone | src/cmd/linuxkit/gcp.go:537-538 | a successful poll's last fetch saw DONE without error |
| Poller.PollOutcomeKinds | src/cmd/linuxkit/gcp.go:528-560 | the poller ends only in success, the fetch error, the operation error or the timeout |
| Poller.MutateAndPollShape | src/cmd/linuxkit/gcp.go:163-170 | an insert or delete comes first; if it fails, nothing follows; otherwise exactly as many fetches of the started operation follow as the poll made |
| Poller.MutateAndPollOperation | src/cmd/linuxkit/gcp.go:163-170 | the insert-then-poll step returns the insert's error unchanged or the poll's outcome, with the requests of the specification |
| Poller.PollOperationStatus | src/cmd/linuxkit/gcp.go:528-560 | the loop over attempts returns the specified poll outcome and issues exactly as many fetches of the operation as the poll makes |
| Validator.ScanGuestOsFeatures | src/cmd/linuxkit/gcp.go:223-229 | the early-exit scan sets `uefiCompatible` if and only if some non-nil feature is `UEFI_COMPATIBLE` |
| Validator.ScanLicenses | src/cmd/linuxkit/gcp.go:234-240 | the early-exit scan sets `vmxLicense` if and only if some licence ends in the vmx licence path |
| Validator.CheckImageFeatures | src/cmd/linuxkit/gcp.go:223-244 | the check passes if and only if every requested feature is supported; it fails with the vTPM error if and only if a vTPM is requested without UEFI support, and with the nested error if and only if nested is requested without the vmx licence while the vTPM check passed |
| Validator.QualifiedKeepsVmxLicense | src/cmd/linuxkit/gcp.go:234-240 | licences that include the vmx licence still do after a host and version are put in front of each, so the suffix test accepts fully qualified licence URLs |
| Validator.CheckImage | src/cmd/linuxkit/gcp.go:223-244 | the two scans and their rejections return the check's verdict |
| Images.CreatedImagePassesCheck | src/cmd/linuxkit/gcp.go:153-161 | an image created with flags (nested, uefi) passes the instance check for (wantNested, wantVtpm) exactly when each wanted feature was built in; with both flags it passes every check |
| Images.ServedImagePassesCheck | src/cmd/linuxkit/gcp.go:153-161 | the same round trip holds when the service returns the image's licences as fully qualified URLs behind any host prefix |
| Images.NewImageObject | src/cmd/linuxkit/gcp.go:142-161 | the object built field by field carries the vmx licence exactly when `nested` is set and the UEFI feature exactly when `uefi` is set |
| Images.DeleteImageIdempotent | src/cmd/linuxkit/gcp.go:176-196 | the delete comes first; it is followed by fetches of the global operation it started, one per poll attempt, and only when it started one; a 404 is success with no poll, any other error is returned unchanged, and a started deletion ends as its poll does |
| Images.DeleteImage | src/cmd/linuxkit/gcp.go:176-196 | the `notFound` flag logic yields the specified outcome and requests |
| Images.CreateImageInsertsAfterDelete | src/cmd/linuxkit/gcp.go:134-170 | the image is inserted at most once, with the descriptor of its flags; without `replace` it is the first request, and with `replace` it comes only after a complete, successful deletion |
| Images.CreateImageReplaceMissing | src/cmd/linuxkit/gcp.go:135-139 | with `replace`, a missing image costs one 404'd delete and is otherwise a plain creation |
| Images.CreateImageSteps | src/cmd/linuxkit/gcp.go:135-170 | after a successful optional delete, creation is the insert and its poll |
| Images.CreateImage | src/cmd/linuxkit/gcp.go:134-173 | the method yields the specified outcome and requests |
| Disks.AllDiskDescriptors | src/cmd/linuxkit/gcp.go:256-274 | there is one disk object per requested disk |
| Disks.DefaultDiskNamesDistinct | src/cmd/linuxkit/gcp.go:258-262 | two unnamed disks at different positions get different default names `<name>-disk-<i>` |
| Disks.NewDiskObject | src/cmd/linuxkit/gcp.go:257-274 | disk `i` is named by its path, or by `<name>-disk-<i>` when the path is empty; its size is 1 GB when unset and converted from MB otherwise; it carries the UEFI feature when a vTPM is requested |
| Disks.InsertDiskTurns | src/cmd/linuxkit/gcp.go:275-281 | one disk's turn is its insert into the zone followed only by fetches of the zone operation that insert started, ends only in service or poller outcomes, and on success ends on a DONE poll |
| Disks.CreateDisksShape | src/cmd/linuxkit/gcp.go:256-287 | the disk loop issues only disk inserts into the instance's zone and fetches of that zone's operations. Every fetch polls the operation started by the nearest disk insert before it. It never ends in a validation failure or a panic. It inserts a prefix of the disk objects in request order, and all of them on success. Every insert after the first follows a poll that saw DONE, and on success the last request is a DONE poll. Its attached entries are `zones/<zone>/disks/<name>`, one per disk, in order |
| Disks.DiskLoopCalls | src/cmd/linuxkit/gcp.go:256-281 | any loop of well-shaped turns issues only disk inserts into its zone and fetches of that zone's operations |
| Disks.DiskLoopPollsOwnInsert | src/cmd/linuxkit/gcp.go:275-281 | in a loop of well-shaped turns every operation fetch polls the operation that the disk insert just before its run of fetches started |
| Disks.DiskLoopOutcome | src/cmd/linuxkit/gcp.go:275-281 | a loop whose turns end only in service outcomes does too |
| Disks.DiskLoopAttached | src/cmd/linuxkit/gcp.go:282-286 | a successful loop appends exactly one attached entry per disk, in order |
| Disks.DiskLoopInOrder | src/cmd/linuxkit/gcp.go:256-281 | the disks inserted are a prefix of the requested ones, in order, and all of them on success |
| Disks.DiskLoopDoneBeforeNext | src/cmd/linuxkit/gcp.go:275-281 | every disk insert but the first is preceded by a poll that saw DONE |
| Disks.DiskLoopEndsDone | src/cmd/linuxkit/gcp.go:278-281 | a successful loop over at least one disk ends on a DONE poll |
| Disks.CreateDataDisks | src/cmd/linuxkit/gcp.go:256-287 | the `for` loop over the disks yields the specified disk loop: its outcome, requests and attached entries |
| Instances.InstanceDescriptorShape | src/cmd/linuxkit/gcp.go:246-326 | the instance built from the boot disk and the data disks' entries satisfies `ProvisionedInstance`: boot disk first; data disks in order with their names; all auto-deleted; only the first boots; Haswell if and only if nested; vTPM if and only if vtpm; the ssh-keys item carries the key |
| Instances.NewInstanceObject | src/cmd/linuxkit/gcp.go:288-326 | the object built field by field is the specified instance descriptor |
| Instances.DeleteInstanceIdempotent | src/cmd/linuxkit/gcp.go:340-360 | the delete comes first, then only fetches of the zone operation it started, one per poll attempt, and polls happen if and only if the delete started an operation and `wait` is set; a 404 is success, any other error is returned unchanged, and without `wait` a found instance is success |
| Instances.DeleteInstance | src/cmd/linuxkit/gcp.go:340-360 | the `notFound` flag logic yields the specified outcome and requests |
| Instances.ReplaceShape | src/cmd/linuxkit/gcp.go:200-204 | the optional deletion issues no inserts and ends only in service or poller outcomes |
| Instances.CreateInstanceDeletesFirst | src/cmd/linuxkit/gcp.go:200-204 | with `replace` the run starts with the waited-for delete of the instance: the delete request, then one fetch of its zone operation per poll attempt. No image fetch, disk insert or instance insert happens unless that deletion succeeded, and each comes after all of its requests |
| Instances.ReplaceToleratesMissingInstance | src/cmd/linuxkit/gcp.go:200-204 | with `replace`, a missing instance costs one 404'd delete and is otherwise a plain creation |
| Instances.CreateInstanceSteps | src/cmd/linuxkit/gcp.go:200-214 | after a successful optional deletion the run continues with the validation and provisioning |
| Instances.ValidateStops | src/cmd/linuxkit/gcp.go:211-244 | a failed key conversion ends the run before any request; a failed image fetch ends it right after the fetch with that error; a failed feature check ends it right after the fetch with the check's error |
| Instances.ValidateSteps | src/cmd/linuxkit/gcp.go:219-256 | once the image passes the check, the image fetch is followed by the provisioning |
| Instances.ValidationDecides | src/cmd/linuxkit/gcp.go:223-244 | once an image is fetched, the run fails with the vTPM error if and only if a vTPM is requested and the image lacks UEFI support. It fails with the nested error if and only if nested is requested, the image lacks the vmx licence and the vTPM check passed. A run that never fetched an image fails with neither. Such a failure ends the run right after the image fetch, with no disk or instance insert issued |
| Instances.ProvisionShape | src/cmd/linuxkit/gcp.go:256-334 | during provisioning the only instance insert is the last request, and no validation failure or panic can occur. On success every disk was inserted in order and the last request inserts the instance built from the boot disk and the disks' entries |
| Instances.ValidateAndProvisionShape | src/cmd/linuxkit/gcp.go:219-334 | from the image fetch on, the only instance insert is the last request; after a passed check only service or poller outcomes can occur; on success every disk was inserted in order and the run ends on the instance insert |
| Instances.ValidateAndProvisionInstance | src/cmd/linuxkit/gcp.go:246-334 | on success the run ends on the insert of an instance that satisfies `ProvisionedInstance` |
| Instances.InstanceInsertedLast | src/cmd/linuxkit/gcp.go:246-334 | the instance insert is the last request of `CreateInstance`, so it is never polled. On success every requested disk was inserted in request order, and the inserted instance has the boot disk first, then one auto-deleted, non-boot entry per data disk, in order. It also has the Haswell platform if and only if nested, vTPM if and only if vtpm, and the session's ssh key |
| Instances.ProvisionInstance | src/cmd/linuxkit/gcp.go:246-334 | the disk loop followed by the unpolled instance insert yields the specified provisioning |
| Instances.ValidateAndProvision | src/cmd/linuxkit/gcp.go:211-334 | the key conversion, image fetch, scans, disk loop and insert yield the specified validation and provisioning |
| Instances.CreateInstance | src/cmd/linuxkit/gcp.go:199-337 | the method, with its optional delete, key conversion, image fetch, scans, disk loop and insert, yields the specified outcome and requests |
| Serial.StopOutcomeCases | src/cmd/linuxkit/gcp.go:367-387 | a reply that ends the loop gives success on a 503 or on a last chunk, a panic on an error that is not an API error, and otherwise returns the API error, which is then neither a 400 nor a 503 |
| Serial.SerialWitnessIrrelevant | src/cmd/linuxkit/gcp.go:365-388 | the loop's run does not depend on which stopping reply is used to bound it |
| Serial.SerialStopsAtFirst | src/cmd/linuxkit/gcp.go:365-388 | the loop ends on the first reply that stops it, with that reply's outcome; every earlier reply was a 400 or a chunk that was not the last, so no request is issued after the stopping one |
| Serial.SerialCursor | src/cmd/linuxkit/gcp.go:365-383 | every request reads the same instance's serial port; the first reads from the starting cursor; after an error the next request reads from the same cursor, and after a chunk from the chunk's next offset |
| Serial.SerialRetryThenChunk | src/cmd/linuxkit/gcp.go:365-383 | after a 400 and then a non-final chunk, the first two requests read from offset 0 and the third from the chunk's next offset |
| Serial.SerialPrintsChunks | src/cmd/linuxkit/gcp.go:380 | the loop prints exactly the chunks it receives, each once, in order |
| Serial.SerialTurn | src/cmd/linuxkit/gcp.go:367-386 | one pass of the loop issues one request; it either ends the loop with the run's outcome, requests and printed chunks, or leaves the loop in a state from which the rest of the run follows |
| Serial.GetInstanceSerialOutput | src/cmd/linuxkit/gcp.go:363-388 | the `for` loop over the cursor `next`, starting at 0, yields the specified run: its outcome, requests and printed chunks |

## Left out

- `NewGCPClient` (credential files, OAuth configuration, RSA key generation) and `UploadFile` (storage upload) are not modelled: they are foreign library calls, file I/O and randomness.
- `ConnectToInstanceSerialPort` is not modelled: it covers the host-key HTTP fetch, the SSH dial and its retry, the PTY, terminal raw mode and the concurrent byte relays.
- Sleeps, logging and the `fmt.Printf` of `GetInstanceSerialOutput` have no effect in the model; the printed chunks are recorded as a result instead.
- The project name is not part of the modelled requests, since it is the same for every request of a client.
- Disks.DiskSizeGb: `convertMBtoGB` is defined outside gcp.go and is kept uninterpreted, so its rounding is not stated.
- Instances.SshKeysValue: the authorized-key text of the session key comes from an SSH library and is opaque; a failed key conversion is modelled as an error the client reports.
- Serial.GetInstanceSerialOutput: requires a reply that ends the loop. A session whose replies are 400 errors or non-final chunks forever makes the Go loop run forever, and that case is not modelled.
- Poller.PollOperationStatus: the global and zone pollers are one method; the endpoint they fetch from is its `Scope` argument.
- Poller.MutateAndPollOperation, Instances.ProvisionInstance, Instances.ValidateAndProvision, Serial.SerialTurn, Validator.CheckImage, Disks.NewDiskObject, Images.NewImageObject and Instances.NewInstanceObject are helper methods that split the Go functions into steps; they do what the cited lines do in place.
- The disk loop is specified once, generically over one turn (`Disks.DiskLoop`), and instantiated with the insert-then-poll turn.
