/** Runs in which a guarantee fails: what the exceptions to it are there for. */
module OtaCorners {
  import opened Wrappers
  import opened OtaTypes
  import opened OtaDevice
  import opened OtaSafety
  import opened OtaScenario
  import opened OtaSuccess

  // ---------------------------------------------------------------- a download that failed its checks

  /** An update of exactly `image`, whose SHA-256 is not the one ordered, over another image. */
  predicate WrongHash(p: Platform, d: Device, cmd: Command, image: seq<byte>)
    requires Alive(d)
  {
    var other := d.slots[Other(d.boot)];
    && 0 < |image| == cmd.size && p.sha256Hex(image) != cmd.sha256
    && p.imageOk(image) && p.versionOf(image) != "" && p.versionOf(image) != d.ram.value.version
    && image != other.flash && other.img in {Valid, Undefined}
  }

  lemma ChecksFail(d: Device, cmd: Command, image: seq<byte>)
    requires Loading(d, cmd, Writing(image))
    ensures EndOfDataStep(d, 0).Some?
    ensures var d1 := EndOfDataStep(d, 0).value;
            && DownloadFailsStep(d1, 0, Sha256Mismatch).Some?
            && var d2 := DownloadFailsStep(d1, 0, Sha256Mismatch).value;
            Idle(d2) && SameAround(d, d2) && d2.slots == d.slots
  {
    StaysNewest(d.ram.value.tracker, RunStatus(cmd, Verifying, -1));
    var d1 := EndOfDataStep(d, 0).value;
    assert Loading(d1, cmd, Complete(image));
    StaysNewest(d1.ram.value.tracker, Status(cmd.requestId, cmd.version, Failed, Sha256Mismatch, -1));
  }

  function LoadAndFail(image: seq<byte>): seq<Event> {
    [WriteChunk(0, image, []), EndOfData(0), DownloadFails(0, Sha256Mismatch)]
  }

  lemma FailRun(p: Platform, d: Device, cmd: Command, image: seq<byte>) returns (b: Device)
    requires Loading(d, cmd, Writing([])) && 0 < |image| == cmd.size <= OTA_SLOT_SIZE
    ensures Run(p, d, LoadAndFail(image)) == Some(b) && Idle(b) && Holding(d, image, b)
  {
    LoadsBytes(d, cmd, image);
    var d1 := WriteStep(d, 0, image, []).value;
    ChecksFail(d1, cmd, image);
    var d2 := EndOfDataStep(d1, 0).value;
    b := DownloadFailsStep(d2, 0, Sha256Mismatch).value;
    ThreeSteps(p, d, d1, d2, b, WriteChunk(0, image, []), EndOfData(0), DownloadFails(0, Sha256Mismatch));
  }

  lemma NobodyVouches(p: Platform, d: Device, cmd: Command, image: seq<byte>)
    requires Alive(d) && WrongHash(p, d, cmd, image)
    ensures !Genuine(p, d, {cmd}, Other(d.boot), image)
  {
    assert image[..cmd.size] == image;
  }

  function WrongHashEvents(cmd: Command, image: seq<byte>, id: RequestId): seq<Event> {
    OrderAndBegin(cmd) + LoadAndFail(image) + SwitchSlots(id, false)
  }

  /** `end` boots exactly `image`, a complete one that was not there in `d` and is not what `cmd` announced. */
  ghost predicate BootsUnvouched(p: Platform, d: Device, cmd: Command, image: seq<byte>, end: Device) {
    && TwoSlots(d) && TwoSlots(end) && end.boot == Other(d.boot) && end.slots[end.boot].flash == image
    && p.imageOk(image) && !Genuine(p, d, {cmd}, end.boot, image)
  }

  lemma SwitchesToIt(p: Platform, d: Device, failed: Device, cmd: Command, image: seq<byte>, id: RequestId)
    returns (end: Device)
    requires Idle(d) && WrongHash(p, d, cmd, image) && Idle(failed) && Holding(d, image, failed) && id != ""
    ensures Run(p, failed, SwitchSlots(id, false)) == Some(end) && BootsUnvouched(p, d, cmd, image, end)
  {
    end := SwitchRun(p, failed, id, false);
    NobodyVouches(p, d, cmd, image);
  }

  lemma WrongHashIsRegular(cmd: Command, image: seq<byte>, id: RequestId)
    ensures AllRegular(WrongHashEvents(cmd, image, id))
  {
  }

  /**
   The SHA-256 of a command protects its own download and not the switch from the web page: from any
   quiet device, a download of a complete image with another SHA-256 fails its check, and the page makes
   the device boot exactly those bytes, which were not there before and which no command vouches for.
   */
  lemma WrongHashBoots(p: Platform, d: Device, cmd: Command, image: seq<byte>, id: RequestId)
    requires Idle(d) && Orderable(d, cmd) && WrongHash(p, d, cmd, image) && id != ""
    ensures AllRegular(WrongHashEvents(cmd, image, id)) && Run(p, d, WrongHashEvents(cmd, image, id)).Some?
    ensures BootsUnvouched(p, d, cmd, image, Run(p, d, WrongHashEvents(cmd, image, id)).value)
  {
    var begun := Begins(p, d, cmd);
    var failed := FailRun(p, begun, cmd, image);
    var end := SwitchesToIt(p, d, failed, cmd, image, id);
    RunsTogether(p, d, begun, failed, OrderAndBegin(cmd), LoadAndFail(image));
    RunsTogether(p, d, failed, end, OrderAndBegin(cmd) + LoadAndFail(image), SwitchSlots(id, false));
    WrongHashIsRegular(cmd, image, id);
  }

  // ---------------------------------------------------------------- the corners that Regular names

  /** An image that was never marked valid loses its way back to the next download. */
  lemma OverwritesTheWayBack(p: Platform, d: Device, cmd: Command, junk: seq<byte>) returns (b: Device)
    requires Idle(d) && Orderable(d, cmd) && d.slots[d.boot].img == PendingVerify
    requires 0 < |junk| <= cmd.size && !p.imageOk(junk)
    ensures Run(p, d, OrderAndBegin(cmd) + [WriteChunk(0, junk, [])]) == Some(b)
    ensures TwoSlots(b) && !p.imageOk(b.slots[NextToRun(b)].flash)
  {
    var begun := Begins(p, d, cmd);
    LoadsBytes(begun, cmd, junk);
    b := WriteStep(begun, 0, junk, []).value;
    OneStep(p, begun, b, WriteChunk(0, junk, []));
    RunsTogether(p, d, begun, b, OrderAndBegin(cmd), [WriteChunk(0, junk, [])]);
  }

  function NoTaskEvents(cmd: Command, image: seq<byte>, next: Command, junk: seq<byte>): seq<Event> {
    InstallEvents(cmd, image) + RestartAndBoot(false) + (OrderAndBegin(next) + [WriteChunk(0, junk, [])])
  }

  /** Without its validation task a new image does not keep commands away, and a reset finds nothing to boot. */
  lemma WithoutTheTaskNothingMayBoot(p: Platform, d: Device, cmd: Command, image: seq<byte>, next: Command, junk: seq<byte>)
    requires Idle(d) && Orderable(d, cmd) && GoodImage(p, cmd, image)
    requires next.requestId != cmd.requestId && next.size <= OTA_SLOT_SIZE && next.version != cmd.version
    requires 0 < |junk| <= next.size && !p.imageOk(junk)
    ensures Run(p, d, NoTaskEvents(cmd, image, next, junk)).Some?
    ensures var end := Run(p, d, NoTaskEvents(cmd, image, next, junk)).value;
            TwoSlots(end) && !p.imageOk(end.slots[NextToRun(end)].flash)
  {
    var switched := InstallRun(p, d, cmd, image);
    BootsNew(p, d, switched, cmd, image, false);
    var booted := BootRun(p, d, switched, cmd, image, false);
    var end := OverwritesTheWayBack(p, booted, next, junk);
    RunsTogether(p, d, switched, booted, InstallEvents(cmd, image), RestartAndBoot(false));
    RunsTogether(p, d, booted, end, InstallEvents(cmd, image) + RestartAndBoot(false),
                 OrderAndBegin(next) + [WriteChunk(0, junk, [])]);
  }

  function NotMarkedEvents(cmd: Command, image: seq<byte>, next: Command, junk: seq<byte>): seq<Event> {
    InstallEvents(cmd, image) + RestartAndBoot(true) + ValidateImage(false)
    + (OrderAndBegin(next) + [WriteChunk(0, junk, [])])
  }

  /** The same when the running image could not be marked valid but its trial is over for the rest of the firmware. */
  lemma WithoutTheMarkNothingMayBoot(p: Platform, d: Device, cmd: Command, image: seq<byte>, next: Command, junk: seq<byte>)
    requires Idle(d) && Orderable(d, cmd) && GoodImage(p, cmd, image)
    requires next.requestId != cmd.requestId && next.size <= OTA_SLOT_SIZE && next.version != cmd.version
    requires 0 < |junk| <= next.size && !p.imageOk(junk)
    ensures Run(p, d, NotMarkedEvents(cmd, image, next, junk)).Some?
    ensures var end := Run(p, d, NotMarkedEvents(cmd, image, next, junk)).value;
            TwoSlots(end) && !p.imageOk(end.slots[NextToRun(end)].flash)
  {
    var switched := InstallRun(p, d, cmd, image);
    BootsNew(p, d, switched, cmd, image, true);
    var booted := BootRun(p, d, switched, cmd, image, true);
    var over := ValidateRun(p, d, booted, cmd, image, false);
    var end := OverwritesTheWayBack(p, over, next, junk);
    RunsTogether(p, d, switched, booted, InstallEvents(cmd, image), RestartAndBoot(true));
    RunsTogether(p, d, booted, over, InstallEvents(cmd, image) + RestartAndBoot(true), ValidateImage(false));
    RunsTogether(p, d, over, end, InstallEvents(cmd, image) + RestartAndBoot(true) + ValidateImage(false),
                 OrderAndBegin(next) + [WriteChunk(0, junk, [])]);
  }

  function StaleEvents(cmd: Command, id: RequestId, junk: seq<byte>): seq<Event> {
    OrderAndBegin(cmd) + SwitchSlots(id, true) + [WriteChunk(0, junk, [])]
  }

  /** A switch whose busy test was overtaken by a command boots the slot that the download goes on writing. */
  lemma AStaleBusyTestBootsADownload(p: Platform, d: Device, cmd: Command, id: RequestId, junk: seq<byte>)
    requires Idle(d) && Orderable(d, cmd) && id != ""
    requires var other := d.slots[Other(d.boot)];
             Offered(p, other, d.ram.value.version) && p.imageOk(other.flash)
    requires 0 < |junk| <= cmd.size && !p.imageOk(junk)
    ensures Run(p, d, StaleEvents(cmd, id, junk)).Some?
    ensures var end := Run(p, d, StaleEvents(cmd, id, junk)).value;
            TwoSlots(end) && !p.imageOk(end.slots[end.boot].flash)
  {
    var begun := Begins(p, d, cmd);
    var switched := SwitchRun(p, begun, id, true);
    var end := LateWrite(switched, cmd, junk);
    OneStep(p, switched, end, WriteChunk(0, junk, []));
    RunsTogether(p, d, begun, switched, OrderAndBegin(cmd), SwitchSlots(id, true));
    RunsTogether(p, d, switched, end, OrderAndBegin(cmd) + SwitchSlots(id, true), [WriteChunk(0, junk, [])]);
  }

  function LateCommandEvents(id: RequestId, cmd: Command, junk: seq<byte>): seq<Event> {
    SwitchSlots(id, false)
    + ([OnCommand(cmd, true, NotYetSet), StartTask(0, true), BeginFlash(0)] + [WriteChunk(0, junk, [])])
  }

  /** A command that read the busy flags before a switch set them is accepted all the same. */
  lemma LateCommandIsAccepted(d: Device, cmd: Command) returns (b: Device)
    requires Alive(d) && d.ram.value.updates == [] && !AnyActive(d.ram.value.tracker) && Orderable(d, cmd)
    ensures CommandStep(d, cmd, true, NotYetSet) == Some(b)
    ensures b == d.(ram := b.ram) && Alive(b) && b.ram.value.updates == [Update(cmd, Starting)]
    ensures b.ram.value.running == d.ram.value.running
  {
    b := CommandStep(d, cmd, true, NotYetSet).value;
  }

  lemma LateCommandBegins(p: Platform, d: Device, cmd: Command) returns (b: Device)
    requires Alive(d) && d.ram.value.updates == [] && !AnyActive(d.ram.value.tracker) && Orderable(d, cmd)
    ensures Run(p, d, [OnCommand(cmd, true, NotYetSet), StartTask(0, true), BeginFlash(0)]) == Some(b)
    ensures Alive(b) && b.slots == d.slots && b.boot == d.boot && b.ram.value.running == d.ram.value.running
    ensures b.ram.value.updates == [Update(cmd, Writing([]))]
  {
    var d1 := LateCommandIsAccepted(d, cmd);
    var d2 := StartStep(d1, 0, true).value;
    b := BeginFlashStep(d2, 0).value;
    ThreeSteps(p, d, d1, d2, b, OnCommand(cmd, true, NotYetSet), StartTask(0, true), BeginFlash(0));
  }

  /** A command whose busy test was overtaken by a switch writes the slot that is about to boot. */
  lemma ALateCommandOverwritesTheSwitch(p: Platform, d: Device, id: RequestId, cmd: Command, junk: seq<byte>)
    requires Idle(d) && Orderable(d, cmd) && Switchable(p, d, false) && id != ""
    requires 0 < |junk| <= cmd.size && !p.imageOk(junk)
    ensures Run(p, d, LateCommandEvents(id, cmd, junk)).Some?
    ensures var end := Run(p, d, LateCommandEvents(id, cmd, junk)).value;
            TwoSlots(end) && !p.imageOk(end.slots[end.boot].flash)
  {
    var switched := SwitchRun(p, d, id, false);
    var begun := LateCommandBegins(p, switched, cmd);
    var end := LateWrite(begun, cmd, junk);
    OneStep(p, begun, end, WriteChunk(0, junk, []));
    RunsTogether(p, switched, begun, end, [OnCommand(cmd, true, NotYetSet), StartTask(0, true), BeginFlash(0)],
                 [WriteChunk(0, junk, [])]);
    RunsTogether(p, d, switched, end, SwitchSlots(id, false),
                 [OnCommand(cmd, true, NotYetSet), StartTask(0, true), BeginFlash(0)] + [WriteChunk(0, junk, [])]);
  }

  lemma LateWrite(d: Device, cmd: Command, junk: seq<byte>) returns (b: Device)
    requires Alive(d) && d.ram.value.updates == [Update(cmd, Writing([]))] && d.boot == Other(d.ram.value.running)
    requires 0 < |junk| <= cmd.size <= OTA_SLOT_SIZE
    ensures WriteStep(d, 0, junk, []) == Some(b) && TwoSlots(b) && b.slots[b.boot].flash == junk
  {
    assert [] + junk == junk && junk + [] == junk;
    b := WriteStep(d, 0, junk, []).value;
  }

  // ---------------------------------------------------------------- a marker that is erased with the report of another

  function LateEraseEvents(cmd: Command, image: seq<byte>, next: Command, image2: seq<byte>): seq<Event> {
    TwoUpdates(cmd, image, next, image2) + [EraseReported(ValidationTask, true)]
  }

  /** The device is about to boot the image of `next`, and the report that is out is the one of `cmd`. */
  predicate Unannounced(p: Platform, d: Device, cmd: Command, next: Command, image: seq<byte>) {
    && Alive(d) && d.marker.None? && d.ram.value.report.final == Some(Success(cmd)) && d.ram.value.report.published == 1
    && d.slots[d.boot].flash == image && d.slots[d.boot].img == New && next.requestId != cmd.requestId
    && BootStep(p, d.(ram := None), true).Some?
    && BootStep(p, d.(ram := None), true).value.ram.value.report.final.None?
  }

  lemma LateErase(p: Platform, was: Device, d: Device, cmd: Command, next: Command, image: seq<byte>) returns (b: Device)
    requires SwitchedTo(was, d, next, image) && next.requestId != cmd.requestId
    requires was.ram.value.report == Report(Some(Success(cmd)), false, true, false, Outside, ToErase, 1)
    ensures EraseStep(d, ValidationTask, true) == Some(b)
    ensures d.marker.Some? && d.marker.value.requestId == next.requestId && Unannounced(p, b, cmd, next, image)
  {
    b := EraseStep(d, ValidationTask, true).value;
  }

  lemma ReportedIsIdle(was: Device, d: Device, cmd: Command, image: seq<byte>, next: Command)
    requires Reported(was, d, cmd, image)
    requires next.requestId != cmd.requestId && next.size <= OTA_SLOT_SIZE && next.version != cmd.version
    ensures Idle(d) && Orderable(d, next)
  {
  }

  function TwoUpdates(cmd: Command, image: seq<byte>, next: Command, image2: seq<byte>): seq<Event> {
    InstallEvents(cmd, image) + ReportEvents() + InstallEvents(next, image2)
  }

  lemma TwoUpdatesRun(p: Platform, d: Device, cmd: Command, image: seq<byte>, next: Command, image2: seq<byte>)
    returns (was: Device, b: Device)
    requires Idle(d) && Orderable(d, cmd) && GoodImage(p, cmd, image) && GoodImage(p, next, image2)
    requires next.requestId != cmd.requestId && next.size <= OTA_SLOT_SIZE && next.version != cmd.version
    ensures Run(p, d, TwoUpdates(cmd, image, next, image2)) == Some(b)
    ensures SwitchedTo(was, b, next, image2)
    ensures was.ram.value.report == Report(Some(Success(cmd)), false, true, false, Outside, ToErase, 1)
  {
    var switched := InstallRun(p, d, cmd, image);
    was := ReportRun(p, d, switched, cmd, image);
    ReportedIsIdle(d, was, cmd, image, next);
    b := InstallRun(p, was, next, image2);
    RunsTogether(p, d, switched, was, InstallEvents(cmd, image), ReportEvents());
    RunsTogether(p, d, was, b, InstallEvents(cmd, image) + ReportEvents(), InstallEvents(next, image2));
  }

  lemma LateEraseIsRegular(cmd: Command, image: seq<byte>, next: Command, image2: seq<byte>)
    ensures AllRegular(LateEraseEvents(cmd, image, next, image2))
  {
  }

  /**
   The erase runs after the lock was dropped: if a newer update stored its marker by then, it is that one
   which goes. The new image is about to boot, and no boot will report it.
   */
  lemma ALateEraseTakesTheNextMarker(p: Platform, d: Device, cmd: Command, image: seq<byte>, next: Command,
                                     image2: seq<byte>)
    requires Idle(d) && Orderable(d, cmd) && GoodImage(p, cmd, image)
    requires GoodImage(p, next, image2) && next.requestId != cmd.requestId && next.size <= OTA_SLOT_SIZE
    requires next.version != cmd.version
    ensures AllRegular(LateEraseEvents(cmd, image, next, image2))
    ensures Run(p, d, LateEraseEvents(cmd, image, next, image2)).Some?
    ensures Unannounced(p, Run(p, d, LateEraseEvents(cmd, image, next, image2)).value, cmd, next, image2)
  {
    var was, again := TwoUpdatesRun(p, d, cmd, image, next, image2);
    var end := LateErase(p, was, again, cmd, next, image2);
    OneStep(p, again, end, EraseReported(ValidationTask, true));
    RunsTogether(p, d, again, end, TwoUpdates(cmd, image, next, image2), [EraseReported(ValidationTask, true)]);
    LateEraseIsRegular(cmd, image, next, image2);
  }
}
