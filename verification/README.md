# Verification of the device's update protocol and its companions

A Dafny model of the parts of this repository in which a wrong step costs most, with proofs of what they
promise. `dafny verify dfyconfig.toml` checks all of it.

**The OTA client of the ESP32 firmware** is the main part. `OtaDevice` is the device during an update as a state
machine: two flash slots with what the bootloader knows of them, the marker in NVS, and everything in RAM that a
restart loses. One step is one critical section of one task (MQTT, download, validation, web page), one write to
flash or NVS, a power loss or the bootloader. `OtaInvariant` proves what each step keeps; `OtaSafety`,
`OtaReport` and `OtaRequests` prove what follows for whole runs; `OtaSuccess` and `OtaCorners` follow particular runs,
those in which a good update and a switch get through and those in which a guarantee fails (`OtaScenario` holds their
common pieces).
`OtaManager` holds the variables of `ota_manager.c` and shows that its critical sections are those steps, and `OtaTasks`
that the download and the validation task are runs of them. Around it:

- `OtaTracker`, `OtaDecide`: the bounded record of handled requests and what a redelivered command does.
- `OtaDownload`, `OtaProgress`: the streaming download with its checks, its resources and its progress reports.
- `JsonText`, `OtaWriter`, `OtaMarker`, `OtaStatus`: the bounded JSON writer, the persisted marker, the status payload.
- `OtaBoot`, `OtaVerdict`: what a boot says of the update before it, on any device, and the validation window.
- `OtaRemote`, `OtaOffer`: the question the web page asks, and what it may switch to.
- `MqttReassembly`: putting an `ota/command` together from its pieces.

**The companions**, each with one strong theorem: `Button` (a press and its bounces), `Sensor` (setting against
autodetection), `Search` (the LIKE pattern), `BackupCompare`, `BackupSums` and `Names` (the backup check), `Embeddings`
(batches and the order of the vectors).

Where the source changes state in place the model is a class, an array or a loop, and each method is tied to a
function; the lemmas are about those functions. What the hardware, ESP-IDF, the server and PostgreSQL do comes in
as parameters: `Platform` (what a complete image is, its version, SHA-256), the outcome of every call that can
fail, and `World`, `Provider` or `Memory` for everything a loop is going to be told.

Assumed of the platform: an NVS write with its commit happens as a whole or not at all; setting the boot partition
refuses an incomplete image and leaves the slot as new; the bootloader runs a new image once and goes back to the
other slot if it was not marked valid (esp32/README.md:136-141 and 311-315). An image is complete or not by its
bytes alone, and a download writes only the slot that does not run.

The guarantees leave out four corners of `ota_manager.c`, which `OtaDevice.Regular` names: a validation task that
cannot be created (610-613), a running image that cannot be marked valid (534-543), and the busy test of the web
page (792 and 805) or of a command (419 and 421) that another task overtakes. The device can take those steps; the
theorems are about runs without them, and `OtaCorners` has for each corner a run that ends with nothing to boot.

Five promises turned out not to hold as they stand, and each has its exact condition:

- The device boots only images that passed the checks of a command: true exactly when the web page never switches to
  a slot into which a chunk was written since its last check (`OtaSafety.CheckedExactlyWithoutUncheckedSwitch`, in terms
  of the bytes `OtaSafety.BootsOnlyGenuineImages`; `OtaCorners.WrongHashBoots` is a run in which it fails).
- An `ota/status` payload always fits its buffer, as `ota_logic.h:36` has it: true exactly up to 328 escaped bytes of
  texts (`OtaStatus.FitsExactly`, `OtaStatus.SomeStatusDoesNotFit`).
- The marker that goes after a report is the one that was reported: true when no marker was stored since the boot
  (`OtaReport.ErasedMarkerWasReported`), and otherwise it is the one stored last (`OtaCorners.ALateEraseTakesTheNextMarker`).
- The button's saturation never changes an outcome: true exactly for polls of at most 2^32 - 300 ms
  (`Button.RightExactlyUpTo`).
- The structural diff of a backup is empty only for equal documents: true up to true being 1 and false being 0
  (`BackupCompare.EmptyExactlyWhenEqual`, `BackupCompare.TruePassesForOne`).

## Model

| member | source | states |
|---|---|---|
| `OtaTracker.Tracker.constructor` | esp32/main/ota/ota_logic.c:255 | the record of handled requests starts empty |
| `OtaTracker.Tracker.Find` | esp32/main/ota/ota_logic.c:257-263 | finds the entry of a request, or says that there is none |
| `OtaTracker.Tracker.Active` | esp32/main/ota/ota_logic.c:265-270 | finds a request in flight if and only if there is one |
| `OtaTracker.Tracker.Drop` | esp32/main/ota/ota_logic.c:284-286 | the memmove takes out exactly one entry and keeps the order of the others |
| `OtaTracker.Tracker.FindVictim` | esp32/main/ota/ota_logic.c:278-283 | picks the oldest request not in flight, or the first entry when all are |
| `OtaTracker.Tracker.Update` | esp32/main/ota/ota_logic.c:272-299 | the array after an update holds exactly the updated record: the entry replaced in place, or appended after the oldest request not in flight made room |
| `OtaTracker.UpdatedKeepsWellFormed` | esp32/main/ota/ota_logic.c:272-299 | an update keeps the ids distinct and at most OTA_TRACKER_SIZE entries |
| `OtaTracker.UpdateByRequest` | esp32/main/ota/ota_logic.c:272-299 | request by request: the updated one gets its status, every other one keeps its own, except at most one that is forgotten and is never one in flight |
| `OtaTracker.LegalKeepsAtMostOneActive` | esp32/main/ota/ota_logic.c:272-299 | at most one request stays in flight |
| `OtaTracker.RememberedWhileFewAreNewer` | esp32/main/ota/ota_logic.c:272-299 | a request stays recorded, with its last status, while at most OTA_TRACKER_SIZE - 2 newer requests entered after it, even when the eviction skips over an older one in flight |
| `OtaTracker.RememberedBoundIsTight` | esp32/main/ota/ota_logic.c:272-299 | with one newer request more it can be forgotten: the bound is exact |
| `OtaDecide.DecideCommand` | esp32/main/ota/ota_logic.c:301-322 | the decision taken over the array is the one of the specification |
| `OtaDecide.AnswerCommand` | esp32/main/ota/ota_manager.c:421-436 | the record and the answer after a command are those of the specification |
| `OtaDecide.HandleKeepsTheRecord` | esp32/main/ota/ota_manager.c:416-437 | an update starts exactly for a new, valid command that fits, of another version unless forced, on a device with nothing else under way; the record stays sound and requests in flight keep their status |
| `OtaDecide.RejectionsAreTrue` | esp32/main/ota/ota_logic.c:301-322 | a rejection names the first reason that holds, each exactly then: another request in flight, an invalid command, a busy device, the size, the version |
| `OtaDecide.RedeliveryRunsNothing` | esp32/main/ota/ota_manager.c:424-443 | a redelivered command starts nothing, leaves the record alone and is answered with the last status, within the bound of the record |
| `OtaBoot.Validate` | esp32/main/ota/ota_manager.c:527-555 | the validation loop marks the image valid exactly when some round within 180 s sees Wi-Fi and MQTT, in the first such round, and otherwise rolls back in the first round past the timeout |
| `JsonText.QuotedIsLegal` | esp32/main/ota/ota_logic.c:113-136 | for every NUL-free text the writer emits a string legal under section 7 of RFC 8259 |
| `JsonText.QuotedReadsBack` | esp32/main/ota/ota_logic.c:113-136 | that string decodes to the text it was written from, whatever follows it |
| `JsonText.ReadIsLegal` | esp32/main/ota/ota_logic.c:113-136 | what the reader takes as a string is legal under section 7 of RFC 8259 |
| `JsonText.DecimalReadsBack` | esp32/main/ota/ota_logic.c:138-142 | a written integer reads back as itself |
| `JsonText.ObjectReadsBack` | esp32/main/ota/ota_logic.c:412-425 | an object written member after member, nested ones included, reads back as the same members in the same order |
| `OtaWriter.Writer.constructor` | esp32/main/ota/ota_logic.c:93-98 | a writer starts empty and fails at once on a buffer of size 0 |
| `OtaWriter.Writer.Char` | esp32/main/ota/ota_logic.c:100-107 | one character is appended if the final NUL still fits behind it, and nothing past the end is ever written |
| `OtaWriter.Writer.Raw` | esp32/main/ota/ota_logic.c:109-111 | a text is appended whole, or the overflow is remembered |
| `OtaWriter.Writer.QuotedString` | esp32/main/ota/ota_logic.c:113-136 | the escaping loop writes exactly the quoted form of the text, or remembers the overflow |
| `OtaWriter.Writer.Int` | esp32/main/ota/ota_logic.c:138-142 | writes the decimal form |
| `OtaWriter.Writer.Finish` | esp32/main/ota/ota_logic.c:145-153 | returns the length with the text terminated, or 0 and an empty buffer after an overflow |
| `OtaMarker.Serialize` | esp32/main/ota/ota_logic.c:412-425 | the buffer holds exactly the text of the marker, or 0 is returned when it does not fit; bytes past the size stay untouched |
| `OtaMarker.MarkerReadsBack` | esp32/main/ota/ota_logic.c:427-447 | parsing a serialized marker gives it back exactly when its three texts are non-empty and its slot is 0 or 1; any other marker reads as none |
| `OtaMarker.WriteAndRead` | esp32/main/ota/ota_manager.c:85-107 | what is stored is what is loaded, whenever serializing did not return 0 |
| `OtaMarker.MarkerFits` | esp32/main/ota/ota_logic.c:412-425 | a marker fits its 320 bytes exactly when its escaped texts take at most 244 |
| `OtaStatus.Build` | esp32/main/ota/ota_logic.c:358-384 | the buffer holds exactly the ota/status payload, or 0 is returned; bytes past the size stay untouched |
| `OtaStatus.StatusReadsBack` | esp32/main/ota/ota_logic.c:358-384 | read as JSON, every payload has exactly the members of its status, the nested error included |
| `OtaStatus.PayloadSays` | esp32/main/ota/ota_logic.c:358-384 | read as JSON the payload has the error with its code and text exactly when rejected, failed or rolled back with one, the progress exactly while downloading and at most 100, the four other members always, each once, and nothing else |
| `OtaStatus.StateIsRead` | backend/app/api/device/firmware/status.py:21-31 | a reader of the nine state words of the backend gets the state back |
| `OtaStatus.ErrorIsRead` | esp32/main/ota/ota_logic.c:27-76 | so does a reader of the error codes, and one of the texts |
| `OtaStatus.FitsExactly` | esp32/main/ota/ota_logic.c:358-384 | every status that the firmware sends for a request fits OTA_STATUS_MAX exactly when its id and the two versions take at most 328 bytes once escaped |
| `OtaStatus.StatusFits` | esp32/main/ota/ota_logic.h:36 | so it fits whenever every byte of the id and the versions needs at most two output bytes |
| `OtaStatus.SomeStatusDoesNotFit` | esp32/main/ota/ota_logic.h:36 | the comment that a payload always fits is not true: the accepted status of a request whose id is made of control characters overflows |
| `OtaProgress.PercentIsTheShare` | esp32/main/ota/ota_logic.c:338-342 | the percentage is the share rounded down, within 0..100, and 100 exactly when every byte was read |
| `OtaProgress.PercentIsMonotone` | esp32/main/ota/ota_logic.c:338-342 | it never goes down as more is read |
| `OtaProgress.Progress.constructor` | esp32/main/ota/ota_logic.c:333-336 | a download starts from 0 at the current time |
| `OtaProgress.Progress.ShouldPublish` | esp32/main/ota/ota_logic.c:344-352 | a percentage is due after ten points or, if it grew, after five seconds, and becomes the new mark only then |
| `OtaProgress.ReportsArePaidFor` | esp32/main/ota/ota_logic.c:344-352 | each report is paid for with ten points or with five seconds |
| `OtaProgress.ReportedExactly` | esp32/main/ota/ota_logic.c:344-352 | a percentage is reported exactly when it grew by ten points, or grew and five seconds went by |
| `OtaProgress.ProgressOfADownload` | esp32/main/ota/ota_manager.c:263-303 | over a whole download the reports strictly increase, lag by less than ten points and by less than five seconds, reach 100 only when all was read, and are at most last_pct/10 + elapsed_ms/5000 |
| `OtaDownload.HexFromDigest` | esp32/main/ota/ota_logic.c:390-397 | the buffer holds the digest as 64 lower-case digits, two for each byte, and a NUL |
| `OtaDownload.TextOfADigest` | esp32/main/ota/ota_logic.c:191-198 | a text equals the written digest exactly when it is 64 digits 0-9 and a-f that spell it byte by byte |
| `OtaDownload.HexIsInjective` | esp32/main/ota/ota_logic.c:390-397 | two digests with the same text are the same digest |
| `OtaDownload.CheckImage` | esp32/main/ota/ota_logic.c:399-406 | the image passes exactly with the announced length and the announced SHA-256 |
| `OtaDownload.ReasonOrDelivery` | esp32/main/ota/ota_manager.c:202-345 | a download gets through each of its stages exactly where there is no reason to fail |
| `OtaDownload.ReadAll` | esp32/main/ota/ota_manager.c:267-303 | the loop keeps flash, hashed and received bytes equal and within the size of the command, and ends well exactly when the server says that it delivered everything |
| `OtaDownload.DownloadAndFlash` | esp32/main/ota/ota_manager.c:202-345 | no error exactly when the server delivers the announced image, its digest spelled by the command, and no step fails, and then flash holds it; otherwise the error is that of the first thing that went wrong; nothing past the received bytes is written; hash, OTA handle, client and buffer are given back on every path |
| `OtaDownload.AcceptedIsTheImage` | esp32/main/ota/ota_manager.c:311-328 | an accepted download has the length and the digest of the image the command describes |
| `OtaDownload.DownloadIsADownload` | esp32/main/ota/ota_manager.c:263-303 | what the loop reports is the progress of a download, so the bounds above hold for it |
| `OtaTasks.PassesRun` | esp32/main/ota/ota_manager.c:268-303 | the passes of the read loop are a run of the device: chunk after chunk into the slot that does not run, with the reports in the record |
| `OtaTasks.ReportsOfThePasses` | esp32/main/ota/ota_manager.c:295-302 | the progress events of that run are the reports of the download |
| `OtaTasks.Download` | esp32/main/ota/ota_manager.c:202-345 | the download is a run of the device that ends with the slot holding the flash and the checks passed, or with the update failed for the very error it returns, with its reports in the record |
| `OtaTasks.ValidateImage` | esp32/main/ota/ota_manager.c:527-555 | the validation task marks the running image valid or makes the other one next, whichever its loop decides, and the device can take that step |
| `OtaInvariant.BootloaderKeeps` | esp32/README.md:136-141 | the bootloader keeps a complete image to boot and, on trial, one to go back to |
| `OtaInvariant.InitKeeps` | esp32/main/ota/ota_manager.c:569-617 | the boot keeps the invariant |
| `OtaInvariant.CommandKeeps` | esp32/main/ota/ota_manager.c:416-437 | handling any command keeps the invariant |
| `OtaInvariant.BeginFlashKeeps` | esp32/main/ota/ota_manager.c:254-265 | starting to overwrite the other slot keeps it |
| `OtaInvariant.WriteKeeps` | esp32/main/ota/ota_manager.c:281-294 | writing a chunk keeps it |
| `OtaInvariant.CheckKeeps` | esp32/main/ota/ota_manager.c:318-335 | passing the size, SHA-256 and esp_ota_end checks keeps it |
| `OtaInvariant.StoreMarkerKeeps` | esp32/main/ota/ota_manager.c:363-369 | storing the marker before the switch keeps it, also when the store fails |
| `OtaInvariant.SetBootKeeps` | esp32/main/ota/ota_manager.c:371-378 | switching the boot partition keeps it |
| `OtaInvariant.SetBootRefusedKeeps` | esp32/main/ota/ota_manager.c:371-376 | a refused switch keeps it |
| `OtaInvariant.MarkValidKeeps` | esp32/main/ota/ota_manager.c:533-538 | marking the running image valid keeps it |
| `OtaInvariant.RollBackKeeps` | esp32/main/ota/ota_manager.c:547-551 | rolling back keeps it, also when it fails |
| `OtaInvariant.EnterKeeps` | esp32/main/ota/ota_manager.c:479-485 | the first section of try_publish_final keeps it, in either task |
| `OtaInvariant.LeaveKeeps` | esp32/main/ota/ota_manager.c:487-491 | the second section keeps it |
| `OtaInvariant.EraseKeeps` | esp32/main/ota/ota_manager.c:492-495 | erasing the marker after the lock was dropped keeps it |
| `OtaInvariant.ChooseKeeps` | esp32/main/ota/ota_manager.c:785-805 | choosing the switch from the web page keeps it |
| `OtaInvariant.SetBootSwitchKeeps` | esp32/main/ota/ota_manager.c:812-823 | switching from the web page keeps it |
| `OtaInvariant.StepKeeps` | esp32/main/ota/ota_manager.c:348-823 | every step of every task, a power loss and the bootloader keep the invariant |
| `OtaInvariant.RunKeeps` | esp32/main/ota/ota_manager.c:348-823 | so does every run, in every interleaving |
| `OtaSafety.AlwaysBoots` | esp32/main/ota/ota_manager.c:348-384 | in every run the slot that the bootloader runs next holds a complete image |
| `OtaSafety.StepKeepsTrust` | esp32/main/ota/ota_manager.c:785-823 | from a device that boots only bytes that were vouched for, a step leads to one that does not exactly when it is a switch from the web page to a slot whose bytes changed since |
| `OtaSafety.TrustedExactlyWithoutChangedSwitch` | esp32/main/ota/ota_manager.c:202-384 | so a run boots, at every moment, only bytes that were there at the start or passed the checks of a command, exactly when it has no such switch |
| `OtaSafety.CheckedExactlyWithoutUncheckedSwitch` | esp32/main/ota/ota_manager.c:202-384 | the same from the events alone: what boots, runs or is the way back was checked after its last chunk, at every moment, exactly when the web page never switches to a slot with a chunk written since its last check |
| `OtaSafety.BootsOnlyGenuineImages` | esp32/main/ota/ota_manager.c:202-384 | then what boots, runs or is the way back is at every moment a complete image, byte for byte the one of the start or with the size and the SHA-256 of a valid command of the run |
| `OtaCorners.WrongHashBoots` | esp32/main/ota/ota_manager.c:785-823 | without that condition it fails: from any quiet device, a complete image with the wrong SHA-256 fails its check and the web page boots exactly those bytes, which were not there before and which no command vouches for |
| `OtaCorners.WithoutTheTaskNothingMayBoot` | esp32/main/ota/ota_manager.c:608-614 | without a validation task a new image does not keep commands away, and a run ends with nothing to boot |
| `OtaCorners.WithoutTheMarkNothingMayBoot` | esp32/main/ota/ota_manager.c:533-542 | the same when the running image could not be marked valid |
| `OtaCorners.AStaleBusyTestBootsADownload` | esp32/main/ota/ota_manager.c:785-805 | a switch whose busy test a command overtook boots a slot that is still being written |
| `OtaCorners.ALateCommandOverwritesTheSwitch` | esp32/main/ota/ota_manager.c:416-437 | a command whose busy test a switch overtook writes the slot that is about to boot |
| `OtaCorners.ALateEraseTakesTheNextMarker` | esp32/main/ota/ota_manager.c:487-495 | an erase after a report can take the marker that a newer update stored meanwhile, and no boot will report that update |
| `OtaSuccess.GoodUpdateSucceeds` | esp32/main/ota/ota_manager.c:348-496 | the protocol also gets there: from any quiet device an update to a good image ends with that image running and marked valid, succeeded published once and the marker gone |
| `OtaSuccess.GoodSwitchSucceeds` | esp32/main/ota/ota_manager.c:785-823 | from any quiet device whose other slot is offered, a switch from the web page ends with that slot running byte for byte and marked valid, succeeded published once and the marker gone |
| `OtaVerdict.BootSaysExactly` | esp32/main/ota/ota_manager.c:584-605 | on every device that is off, whatever NVS and the slots hold: a boot has a final status, pending and in the record, exactly when the slot of the marker runs or the version before it runs again, with the state and the error that follow from that; any other marker is dropped without a word |
| `OtaSafety.BootIsTruthful` | esp32/main/ota/ota_logic.c:453-480 | on a device that keeps the invariant a boot with a marker always reports it, and what runs in the slot of an update are the very bytes that were checked |
| `OtaSafety.EveryVerdictIsTruthful` | esp32/main/ota/ota_manager.c:584-605 | in every run: succeeded exactly when the slot of the update runs the promised version, rolled back exactly when the other slot runs the recorded previous version, and the marker is never taken for a stale one; what runs in the slot of an update has the SHA-256 of its command |
| `OtaSafety.TrialKeepsPrevious` | esp32/main/ota/ota_manager.c:416-422 | from the first boot of an image until it is marked valid no step changes the other slot, the marker or the way back |
| `OtaSafety.TrialEndsInThePreviousImage` | esp32/main/ota/ota_manager.c:527-555 | an image that is not marked valid is undone: the next boot runs the previous one byte for byte and reports rolled back |
| `OtaReport.FinalGoesOutAtMostOnce` | esp32/main/ota/ota_manager.c:479-509 | one boot gets the final status out at most once, whatever the interleaving of the two tasks, and only after the validation ended |
| `OtaReport.MarkerGoesOnlyAfterTheReport` | esp32/main/ota/ota_manager.c:479-496 | the marker leaves NVS only by an erase after a report of this boot went out, or when the switch it announced was refused |
| `OtaReport.MarkerIsTheLastStored` | esp32/main/ota/ota_manager.c:479-496 | between two boots NVS holds the marker stored last, or the one the boot found when none was stored, or none |
| `OtaReport.ErasedMarkerWasReported` | esp32/main/ota/ota_manager.c:479-496 | what the erase takes is the marker stored last since the boot; when none was stored, it is the marker of the very final status that went out |
| `OtaReport.LostEraseRepeatsTheReport` | esp32/main/ota/ota_manager.c:479-496 | a power loss between the report and the erase repeats the same status at the next boot, unless another marker was stored |
| `OtaRequests.OnlyTheActiveDownloadWrites` | esp32/main/ota/ota_manager.c:267-303 | only the download of the one request in flight writes flash, into the slot that does not run and never past the announced size |
| `OtaRequests.StepRecords` | esp32/main/ota/ota_manager.c:136-180 | within a boot the record changes by the recordings of the tasks and in no other way |
| `OtaRequests.RecordingIsLegal` | esp32/main/ota/ota_manager.c:166-180 | a recording is a new request brought by a command, or the next state of the one in flight |
| `OtaRequests.ProgressIsAPercentage` | esp32/main/ota/ota_manager.c:295-302 | what is recorded of a download is a percentage of at most 100, higher than the last one |
| `OtaRequests.RecordStaysSound` | esp32/main/ota/ota_manager.c:166-180 | the record stays sound, the request in flight is never forgotten, and recorded states only move forward |
| `OtaRequests.RedeliveredCommandChangesNothing` | esp32/main/ota/ota_manager.c:401-450 | once handled, a redelivered command changes nothing until the next boot and is answered with the recorded status, which is what the request has reached, within the bound of the record |
| `OtaRequests.ReportedCommandIsReplayed` | esp32/main/ota/ota_manager.c:596-605 | the boot that reports an update records its final status: a redelivery of its command runs nothing and is answered with that very status, within the same bound |
| `OtaManager.Manager.constructor` | esp32/main/ota/ota_manager.c:54-80 | the variables start empty at every boot |
| `OtaManager.Manager.Init` | esp32/main/ota/ota_manager.c:569-617 | ota_manager_init leaves the variables of the boot step: the report of the update that ended, or nothing and no marker, and the validation pending exactly for an image on trial whose task was created |
| `OtaManager.Manager.Boot` | esp32/main/ota/ota_manager.c:569-617 | from what the bootloader and NVS hold, the variables that ota_manager_init leaves are those of the device after the boot step, and say what BootSaysExactly says |
| `OtaManager.Manager.ReadsFlags` | esp32/main/ota/ota_manager.c:417-419 | the busy flags are read before the lock is taken |
| `OtaManager.Manager.HandleCommand` | esp32/main/ota/ota_manager.c:416-437 | the locked section is the command step with the flags as they were read, with the answer of the specification |
| `OtaManager.Manager.Report` | esp32/main/ota/ota_manager.c:166-180 | transition() and fail() record exactly the new status |
| `OtaManager.Manager.TaskNotStarted` | esp32/main/ota/ota_manager.c:451-468 | a task that does not start ends the update with no_memory |
| `OtaManager.Manager.DownloadFailed` | esp32/main/ota/ota_manager.c:386-389 | a failed download ends the update with its error |
| `OtaManager.Manager.DownloadBegins` | esp32/main/ota/ota_manager.c:262-265 | recording the start is the step that begins the download |
| `OtaManager.Manager.DownloadProgresses` | esp32/main/ota/ota_manager.c:295-302 | recording a percentage is the progress step |
| `OtaManager.Manager.DownloadEnds` | esp32/main/ota/ota_manager.c:309 | recording verifying is the end-of-data step |
| `OtaManager.Manager.Installs` | esp32/main/ota/ota_manager.c:361 | recording installing is the install step |
| `OtaManager.Manager.StoresMarker` | esp32/main/ota/ota_manager.c:363-369 | marker_store with the marker of the command is the marker step, also when it fails |
| `OtaManager.Manager.SetsBoot` | esp32/main/ota/ota_manager.c:371-376 | esp_ota_set_boot_partition is the switch step, and a refusal erases the marker and fails the update |
| `OtaManager.Manager.Reboots` | esp32/main/ota/ota_manager.c:378 | recording rebooting is the last step before the restart |
| `OtaManager.Manager.ClearsPending` | esp32/main/ota/ota_manager.c:539 | clearing the pending flag is a step of its own |
| `OtaManager.Manager.SetsReady` | esp32/main/ota/ota_manager.c:540-542 | releasing the report is a step of its own |
| `OtaManager.Manager.BeginsPublish` | esp32/main/ota/ota_manager.c:479-485 | the first section sends exactly when the report is pending, ready and not being sent |
| `OtaManager.Manager.EndsPublish` | esp32/main/ota/ota_manager.c:488-491 | the second section settles the report only if it was sent |
| `OtaManager.Manager.ErasesReported` | esp32/main/ota/ota_manager.c:492-494 | the erase after the lock was dropped is the erase step |
| `OtaManager.Manager.IsBusy` | esp32/main/ota/ota_manager.c:631-636 | busy exactly with a request in flight, a validation or a switch pending |
| `OtaManager.Manager.ChoosesSwitch` | esp32/main/ota/ota_manager.c:785-807 | a switch is chosen exactly when no question is open, nothing is in flight or pending, there is an id, and the other slot is readable, of another version and in state valid or undefined; the marker names that version, the running one and the slot |
| `OtaOffer.ChoosesExactly` | esp32/main/ota/ota_remote.c:129-141 | on the device the same: the step is there exactly then |
| `OtaOffer.ChoosesThat` | esp32/main/ota/ota_remote.c:143-150 | what it writes down is the version that was read, the one that runs and the slot |
| `OtaOffer.RejectedImageIsNotOffered` | esp32/main/ota/ota_remote.c:133-135 | in every run: an image that was rolled back, or given up by the bootloader, is not offered again and does not boot until something is written to its slot |
| `OtaManager.Manager.StoresSwitch` | esp32/main/ota/ota_manager.c:808-811 | storing the marker of the switch is its step, and a failed store ends the switch |
| `OtaManager.Manager.SetsBootSwitch` | esp32/main/ota/ota_manager.c:812-823 | switching is its step, and a refusal erases the marker and ends the switch |
| `OtaRemote.Remote.constructor` | esp32/main/ota/ota_remote.c:155-158 | a question starts idle and empty |
| `OtaRemote.Remote.SetError` | esp32/main/ota/ota_remote.c:183-189 | an error closes the question with a cut code and message |
| `OtaRemote.Remote.Check` | esp32/main/ota/ota_remote.c:191-200 | a check opens exactly when nothing is under way |
| `OtaRemote.Remote.Request` | esp32/main/ota/ota_remote.c:202-212 | a request opens exactly for an available version |
| `OtaRemote.Remote.Answered` | esp32/main/ota/ota_remote.c:214-241 | an answer is taken exactly for the open question, and an answer to a request is a refusal |
| `OtaRemote.Remote.Tracked` | esp32/main/ota/ota_remote.c:243-254 | a status of the question moves it to updating or to an error |
| `OtaRemote.Remote.Tick` | esp32/main/ota/ota_remote.c:256-261 | the timeout closes a waiting question |
| `OtaRemote.Remote.NotSent` | esp32/main/ota/ota_remote.c:263-266 | a failed publish closes a waiting question |
| `OtaRemote.Remote.SyncWith` | esp32/main/ota/ota_manager.c:657-670 | the timeout comes first, then what the record says of the question |
| `OtaRemote.RunIsSound` | esp32/main/ota/ota_remote.c:191-266 | over all events: what is available, requested or being installed is the non-empty version of the last check that was answered with one, and an error has a code |
| `OtaRemote.FromTheStart` | esp32/main/ota/ota_remote.c:155-266 | so from the initial state on |
| `OtaRemote.UpdatingFollowsTheRecord` | esp32/main/ota/ota_remote.c:243-254 | updating is entered exactly on an active status of the awaited request and left exactly when that request ends badly, with its error |
| `OtaRemote.AnswerClosesTheQuestion` | esp32/main/ota/ota_remote.c:214-241 | an answer is taken exactly for the waiting question of its id, and closes it with its error, its version or none |
| `OtaRemote.NoQuestionWaitsForever` | esp32/main/ota/ota_remote.c:256-261 | 20 s after it was sent a question is neither checking nor requesting |
| `OtaRemote.LeftAloneForTwentySeconds` | esp32/main/ota/ota_remote.c:256-261 | a waiting question of which the record says nothing is left as it is exactly while less than 20 s went by |
| `OtaRemote.FirstAnswerIsTaken` | esp32/main/ota/ota_remote.c:214-261 | over every run in which nothing opens, fails, answers or reports on it, a question stays the same for 20 s, and the first answer with its id is taken for what it says |
| `OtaRemote.SyncIsARun` | esp32/main/ota/ota_manager.c:657-670 | a look at the page is the clock and then the status of the record, so what holds of runs holds of it |
| `OtaRemote.ChecksExactly` | esp32/main/ota/ota_remote.c:191-200 | a check opens exactly when nothing is under way and there is an id, with nothing known yet |
| `OtaRemote.RequestsExactly` | esp32/main/ota/ota_remote.c:202-212 | an update is asked for exactly when a version is on offer, which it keeps |
| `OtaRemote.FollowsExactly` | esp32/main/ota/ota_remote.c:243-254 | a status moves only the question that asked for it: on to updating, to its error, or internal when it has none |
| `OtaRemote.EndsUnanswered` | esp32/main/ota/ota_remote.c:256-266 | a question that was not sent or waited 20 s ends in that error, and any other is left alone |
| `OtaRemote.OneAnswer` | esp32/main/ota/ota_remote.c:214-241 | a closed question takes no answer until the page asks again |
| `MqttReassembly.Reassembler.constructor` | esp32/main/mqtt/mqtt_manager.c:191-196 | no message is under way at first |
| `MqttReassembly.Reassembler.Begin` | esp32/main/mqtt/mqtt_manager.c:192-210 | the first piece drops what was under way and takes a buffer exactly for a wanted message |
| `MqttReassembly.Reassembler.Continue` | esp32/main/mqtt/mqtt_manager.c:212-225 | a piece goes into the buffer inside its bounds, which is handed over when full and dropped when it would overflow |
| `MqttReassembly.Reassembler.OnChunk` | esp32/main/mqtt/mqtt_manager.c:191-225 | one event changes the buffer and hands over a payload exactly as specified, and every write is inside the buffer |
| `MqttReassembly.HandleExactly` | esp32/main/mqtt/mqtt_manager.c:191-225 | any piece, in order or not: dropped with everything before it when no wanted message is under way or it does not fit, handed over when it ends the message, and otherwise added at its place |
| `MqttReassembly.CopyTo` | esp32/main/mqtt/mqtt_manager.c:218 | the copy changes exactly the bytes of the piece |
| `MqttReassembly.StreamIsDelivered` | esp32/main/mqtt/mqtt_manager.c:191-225 | of any stream of messages in ordered pieces, some of them cut off, exactly the complete ones on the command topic, of 1 to 2048 bytes and with memory, are handed over, once, in order and byte for byte |
| `Button.ButtonState.constructor` | esp32/main/button/button_logic.c:9-14 | the button starts released |
| `Button.ButtonState.Poll` | esp32/main/button/button_logic.c:16-58 | one poll changes the three counters as specified, wrap-around and saturation included |
| `Button.OnePoll` | esp32/main/button/button_logic.c:22-58 | one poll of the counters does what the press means on an unbounded clock, for polls of at most 2^32 - 300 ms |
| `Button.FeedbackTellsTheSpan` | esp32/main/button/button_logic.c:22-58 | the feedback while the button is down tells for how long it has been held, bounces counted in: armed from 3 s, reset from 10 s |
| `Button.RightExactlyUpTo` | esp32/main/button/button_logic.c:33-36 | saturation never changes an outcome, for all sequences, exactly for polls of at most 2^32 - 300 ms |
| `Button.LongerPollsLoseTheHold` | esp32/main/button/button_logic.c:33-36 | with any longer poll a hold of more than ten seconds can go unseen |
| `Button.OnePressOneOutcome` | esp32/main/button/button_logic.c:22-58 | each press has one outcome fixed by its span with bounces counted in: nothing below 3 s, one toggle at the release below 10 s, else one reset while held and no toggle |
| `Button.EverySequenceSplits` | esp32/main/button/button_logic.c:22-58 | any sequence of polls is presses and stretches with the button up in turn, and a press at most that is not over |
| `Button.EveryPressHasItsOutcome` | esp32/main/button/button_logic.c:16-58 | over any sequence of polls the counters give each press its one outcome and do nothing else |
| `Button.NothingBetweenPresses` | esp32/main/button/button_logic.c:47-48 | between presses nothing happens |
| `Button.Concatenated` | esp32/main/button/button_logic.c:22-58 | a sequence of polls acts as its parts one after the other |
| `Sensor.SensorState.constructor` | esp32/main/sensor/sensor.c:422-458 | the boot takes the stored setting and the earlier detection |
| `Sensor.SensorState.BeginCycle` | esp32/main/sensor/sensor.c:377-389 | the first section consumes a request and begins a detection exactly when it is due or asked for |
| `Sensor.SensorState.EndProbe` | esp32/main/sensor/sensor.c:395-406 | the second section keeps the result only if nothing newer arrived |
| `Sensor.SensorState.EndRead` | esp32/main/sensor/sensor.c:481-488 | a reading is kept only if its model is still in use |
| `Sensor.SensorState.ChangeSetting` | esp32/main/sensor/sensor.c:533-561 | a setting takes effect whole, and going back to automatic asks for a detection |
| `Sensor.SensorState.DetectAgain` | esp32/main/sensor/sensor.c:563-578 | asking again forgets the detected model |
| `Sensor.RunIsSound` | esp32/main/sensor/sensor.c:377-578 | in every interleaving the model in use is the effective one, and the sensor is ready exactly when there is one |
| `Sensor.FromTheStart` | esp32/main/sensor/sensor.c:422-446 | so from every boot on |
| `Sensor.BootUsesOrLooks` | esp32/main/sensor/sensor.c:422-458 | the first cycle of a boot reads what is set or was detected before, and looks for a sensor otherwise |
| `Sensor.CycleExactly` | esp32/main/sensor/sensor.c:377-389 | a cycle reads the model in use; without one it looks for a sensor exactly on automatic when asked to, when it has not looked yet or when the retry is due |
| `Sensor.RetryFindsIt` | esp32/main/sensor/sensor.c:377-406 | a sensor that was not found is looked for again when the retry is due, and used once it is there |
| `Sensor.PageTakesEffect` | esp32/main/sensor/sensor.c:533-578 | what the page stores takes effect whole, and what could not be stored has none |
| `Sensor.StaleDetectionIsDropped` | esp32/main/sensor/sensor.c:395-406 | a detection is kept exactly when the page changed nothing while it ran |
| `Sensor.AskingIsOwed` | esp32/main/sensor/sensor.c:563-578 | a request is owed a detection |
| `Sensor.OwedUntilAnswered` | esp32/main/sensor/sensor.c:377-406 | each step keeps it owed, answers it with a detection begun after it, or picks a model |
| `Sensor.NoRequestIsLost` | esp32/main/sensor/sensor.c:377-578 | over every run a request stays owed until it is answered or a model is picked |
| `Sensor.NextCycleAnswers` | esp32/main/sensor/sensor.c:377-406 | a task outside the sensor answers it in its next cycle |
| `Sensor.AnsweredInThreeTurns` | esp32/main/sensor/sensor.c:377-406 | from wherever the task is, three steps of its own answer it, unless the page interferes |
| `Sensor.KeptReadingsAreCurrent` | esp32/main/sensor/sensor.c:481-488 | a reading is kept only if its sensor is still the one in use |
| `Sensor.SensorState.GetLast` | esp32/main/sensor/sensor.c:501-514 | a reading is shown exactly when its sensor is the one in use |
| `Sensor.ShownIsCurrent` | esp32/main/sensor/sensor.c:481-514 | after any run from a boot, what is shown was read since from the very sensor that the setting and the last detection call for now |
| `Search.ThreeReplacesEscapeOnce` | backend/app/core/search.py:19-23 | the three chained replacements equal one escape for each character |
| `Search.PatternFindsTheText` | backend/app/core/search.py:13-24 | under LIKE with the backslash escape the pattern matches exactly the texts that contain the trimmed and cut search text, and there is none exactly when nothing is left of it |
| `Search.StripTrims` | backend/app/core/search.py:15 | trimming takes the white space at both ends, all of it and nothing else |
| `Search.CleanedIs` | backend/app/core/search.py:13-17 | what is searched for is the text without white space at its ends, and of that the first 64 characters |
| `Search.SpacesAre` | backend/app/core/search.py:15 | white space is what Python takes for it |
| `Names.SortedAscends` | scripts/backup_manifest.py:453 | sorted() gives every name once, each before the greater ones |
| `BackupCompare.LinesAreTheDiff` | scripts/backup_manifest.py:449-469 | the lines in their order are exactly those that belong to the diff |
| `BackupCompare.LinesTellTheTruth` | scripts/backup_manifest.py:449-469 | a line is about a place that only the manifest has, that only the database has, or where the two values differ |
| `BackupCompare.EveryDifferenceShows` | scripts/backup_manifest.py:449-469 | wherever the documents differ there is a line for that place, for one on the way to it or for one inside it |
| `BackupCompare.Compare` | scripts/backup_manifest.py:449-469 | the diff has every line that belongs to it and no other one, keys in sorted order and items by index |
| `BackupCompare.CompareObjects` | scripts/backup_manifest.py:451-461 | every key of either object is looked at, in sorted order |
| `BackupCompare.CompareLists` | scripts/backup_manifest.py:462-466 | lists of the same length are compared item by item |
| `BackupCompare.EmptyExactlyWhenEqual` | scripts/backup_manifest.py:449-469 | the diff is empty exactly when the two values are equal once True and False are 1 and 0 |
| `BackupCompare.IsSame` | scripts/backup_manifest.py:449-469 | no line means equal in that sense |
| `BackupCompare.ExactWithoutBooleans` | scripts/backup_manifest.py:449-469 | for documents without booleans the diff is empty exactly when they are the same |
| `BackupCompare.TruePassesForOne` | scripts/backup_manifest.py:467-469 | with booleans it is not: true where 1 was expected goes unreported |
| `BackupSums.ReadSums` | scripts/backup_manifest.py:521-528 | the list is read line by line, the last digest of a name counts, and bad lines are reported by number, in their order |
| `BackupSums.EntryExactly` | scripts/backup_manifest.py:524 | a line is taken exactly when it is 64 lower-case digits, two spaces and a name |
| `BackupSums.LinesAre` | scripts/backup_manifest.py:523 | lines end at any of the ten breaks of splitlines(), a carriage return together with its line feed |
| `BackupSums.BreaksAre` | scripts/backup_manifest.py:523 | these are the ten |
| `BackupSums.ArtifactsAre` | scripts/backup_manifest.py:502-509 | every file but the list and the verification report has to be listed |
| `BackupSums.CheckListed` | scripts/backup_manifest.py:529-534 | the listed files that are missing or changed are reported in the order of their names |
| `BackupSums.CheckSums` | scripts/backup_manifest.py:517-538 | the check gives every reason that holds and no other one: the bad lines by number, then the listed files by name, then the artifacts that are not listed |
| `BackupSums.WriteSums` | scripts/backup_manifest.py:512-514 | the list has one line for each artifact |
| `BackupSums.Passes` | scripts/backup_manifest.py:517-538 | the check passes exactly when the list is well formed, every listed file has its digest and every artifact is listed |
| `BackupSums.SameListSameArtifacts` | scripts/backup_manifest.py:517-538 | two backups that pass with the same list have the same artifacts with the same digests |
| `BackupSums.PassesRightAfterWriting` | scripts/backup_manifest.py:512-538 | right after write_sums the check passes, exactly when no artifact has a line break in its name |
| `Embeddings.EverySlotIsFilled` | backend/app/core/embeddings.py:156-166 | as many items as texts with distinct indices in range fill every slot |
| `Embeddings.Fill` | backend/app/core/embeddings.py:156-165 | the slots are filled exactly when every item is good and no two are for the same text |
| `Embeddings.Parse` | backend/app/core/embeddings.py:149-166 | an answer is taken exactly when it has one good item for each text, in any order, and the final filter drops nothing |
| `Embeddings.AnyOrderIsTaken` | backend/app/core/embeddings.py:149-166 | an answer that has the embedding of every text is taken, whatever the order of its items |
| `Embeddings.EmbedBatch` | backend/app/core/embeddings.py:127-146 | one retry exactly after no answer or one of 429, 500, 502, 503 and 504, and the last answer decides |
| `Embeddings.NextBatch` | backend/app/core/embeddings.py:122-124 | one pass appends the vectors of the next batch, or fails |
| `Embeddings.Embed` | backend/app/core/embeddings.py:118-125 | one vector for each text in the order of the texts, for any batch size; it succeeds exactly when every batch is answered well |
| `Embeddings.AnySizeSameVectors` | backend/app/core/embeddings.py:118-125 | two calls with batches of any two sizes, and whatever was called before, give the same vectors when their answers are taken |

## Left out

- `ota_parse_command` (ota_logic.c:154-248) and `ota_parse_available`: a command or an answer comes in parsed, with a flag for an invalid one; an unreadable one changes nothing.
- JsonText.ParseTail: decodes \u escapes of ASCII characters only, because the writer emits no others; white space, empty objects, arrays, literals, fractions and exponents are not read either.
- OtaStatus.Build: publishing a status that could not go out on the next connect (s_unsent, ota_manager.c:156-164 and 498-509) is not modelled; only the record and the final report are.
- OtaInvariant.StepKeeps: leaves out the four corners named by OtaDevice.Regular; OtaCorners has a run for each.
- OtaReport.LostEraseRepeatsTheReport: a new update or a switch from the web page may overwrite a marker that was not reported yet; no claim is made that every replaced marker is reported.
- OtaTasks.Download: no other task steps in between in this run; the interleavings are those of OtaDevice, whose events are the same. A chunk that fails to be written is taken to leave flash alone.
- OtaDownload.DownloadAndFlash: the erase of whole sectors behind the written bytes is part of OtaDevice (the `rest` of a chunk) and not of the array; an error of the final hash call is taken to close the hash.
- OtaManager.Manager.ChoosesSwitch: whether a question to the backend is open is a parameter; OtaRemote models it.
- `ota_memory_ok`, topics, logging, heap figures, task stacks and priorities: they decide only whether a task starts, which is a parameter.
- OtaRemote.Remote.SetError: a cut message may end inside a UTF-8 character; texts are bytes here.
- MqttReassembly.Reassembler.OnChunk: the sum of offset and length does not overflow an int in this model, and the payload is handed over as bytes, so a NUL inside it is not treated as its end.
- Button.OnePressOneOutcome: is stated on the unbounded clock; EveryPressHasItsOutcome carries it to the counters, for polls of at most 2^32 - 300 ms.
- Sensor.SensorState.ChangeSetting: NVS is written outside the lock, so nothing is claimed about the stored keys under concurrency; probing, readings and plausibility ranges are not modelled.
- Search.PatternFindsTheText: ILIKE compares characters one by one through a folding function; foldings that change the number of characters are not modelled.
- BackupCompare.Compare: the text of a line and of its path is not modelled, and NaN is not a number here.
- BackupSums.CheckSums: names are compared as they are listed (no `./` or `..`), files are regular ones, contents stand for their decoded text, and the order in which `artifact_files` goes through the artifacts (by path, not by name) is not modelled.
- BackupSums.WriteSums: for the same reason the lines come in some order of the artifacts.
- `check_s3`, `verify`, restoring and describing a database: they add further reasons of the same kind, or talk to Docker and PostgreSQL.
- Embeddings.Embed: missing credentials, the request itself and the pause before the retry are not modelled.
- Embeddings.Parse: building a unit vector (`_normalize`) is a function that may reject its input; floating point is not modelled.
- HTTP handlers, web pages, LED, watchdog, Wi-Fi, telemetry, provisioning, the emulator, FastAPI, mail, S3 clients and the frontend: input, output and user interface.
- Migrations and row-level security policies: their meaning lives in PostgreSQL.
