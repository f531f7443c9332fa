/** A good update gets through: the steps that the guarantees restrict are also enough. */
module OtaSuccess {
  import opened Wrappers
  import opened OtaTypes
  import opened OtaDevice
  import opened OtaScenario

  /** An update of exactly `image`, whose size, SHA-256 and version are those of the command. */
  predicate GoodImage(p: Platform, cmd: Command, image: seq<byte>) {
    && 0 < |image| == cmd.size && p.sha256Hex(image) == cmd.sha256 && p.imageOk(image)
    && p.versionOf(image) == cmd.version != ""
  }

  function LoadAndCheck(image: seq<byte>): seq<Event> {
    [WriteChunk(0, image, []), EndOfData(0), CheckImage(0)]
  }

  function InstallAndSwitch(): seq<Event> {
    [Install(0), StoreMarker(0, true), SetBoot(0, true, false)]
  }

  function RestartAndBoot(taskCreated: bool): seq<Event> {
    [ReportRebooting(0), Restart(0), Boot(taskCreated)]
  }

  function ValidateImage(ok: bool): seq<Event> {
    [MarkAppValid(ok), ClearPending, FinalReady]
  }

  function PublishReport(): seq<Event> {
    [EnterPublish(ValidationTask), PublishFinal(ValidationTask, true), LeavePublish(ValidationTask)]
  }

  // ---------------------------------------------------------------- up to the switch

  /** The slot that does not run holds `image` and nothing else changed since `d`. */
  predicate Carries(d: Device, image: seq<byte>, d': Device) {
    SameAround(d, d') && d'.slots[d.boot] == d.slots[d.boot] && d'.slots[Other(d.boot)].flash == image
  }

  lemma CheckSteps(p: Platform, d: Device, cmd: Command, image: seq<byte>)
    requires Loading(d, cmd, Writing(image)) && d.slots[Other(d.boot)].flash == image && GoodImage(p, cmd, image)
    ensures EndOfDataStep(d, 0).Some?
    ensures var d1 := EndOfDataStep(d, 0).value;
            && CheckStep(p, d1, 0).Some?
            && var d2 := CheckStep(p, d1, 0).value;
            Loading(d2, cmd, Checked) && Carries(d, image, d2)
  {
    StaysNewest(d.ram.value.tracker, RunStatus(cmd, Verifying, -1));
    assert Loading(EndOfDataStep(d, 0).value, cmd, Complete(image));
  }

  lemma LoadsInThree(p: Platform, d: Device, d1: Device, d2: Device, b: Device, image: seq<byte>)
    requires WriteStep(d, 0, image, []) == Some(d1) && EndOfDataStep(d1, 0) == Some(d2) && CheckStep(p, d2, 0) == Some(b)
    ensures Run(p, d, LoadAndCheck(image)) == Some(b)
  {
    ThreeSteps(p, d, d1, d2, b, WriteChunk(0, image, []), EndOfData(0), CheckImage(0));
  }

  lemma Loads(p: Platform, d: Device, cmd: Command, image: seq<byte>) returns (b: Device)
    requires Loading(d, cmd, Writing([])) && GoodImage(p, cmd, image) && cmd.size <= OTA_SLOT_SIZE
    ensures Run(p, d, LoadAndCheck(image)) == Some(b)
    ensures Loading(b, cmd, Checked) && Carries(d, image, b)
  {
    LoadsBytes(d, cmd, image);
    var d1 := WriteStep(d, 0, image, []).value;
    CheckSteps(p, d1, cmd, image);
    var d2 := EndOfDataStep(d1, 0).value;
    b := CheckStep(p, d2, 0).value;
    LoadsInThree(p, d, d1, d2, b, image);
  }

  /** The marker is stored and the next boot runs `image`; the slot that still runs is the one of `was`. */
  predicate SwitchedTo(was: Device, d: Device, cmd: Command, image: seq<byte>) {
    && Alive(was) && Alive(d)
    && var o := Other(was.boot);
    && d.boot == o && d.ram.value.running == was.boot && d.slots[was.boot] == was.slots[was.boot]
    && d.ram.value.updates == [Update(cmd, Switched)] && Newest(d.ram.value.tracker, cmd.requestId)
    && d.ram.value.report == was.ram.value.report
    && d.slots[o].flash == image && d.slots[o].img == New
    && d.marker == Some(Marker(cmd.requestId, cmd.version, was.ram.value.version, o))
  }

  lemma InstallSteps(p: Platform, was: Device, d: Device, cmd: Command, image: seq<byte>)
    requires Loading(d, cmd, Checked) && Carries(was, image, d) && GoodImage(p, cmd, image)
    ensures InstallStep(d, 0).Some?
    ensures var d1 := InstallStep(d, 0).value;
            && StoreMarkerStep(d1, 0, true).Some?
            && var d2 := StoreMarkerStep(d1, 0, true).value;
            && SetBootStep(p, d2, 0, true, false).Some?
            && SwitchedTo(was, SetBootStep(p, d2, 0, true, false).value, cmd, image)
  {
    StaysNewest(d.ram.value.tracker, RunStatus(cmd, Installing, -1));
    var d1 := InstallStep(d, 0).value;
    assert Loading(d1, cmd, ToMark);
  }

  lemma InstallsIt(p: Platform, was: Device, d: Device, cmd: Command, image: seq<byte>) returns (b: Device)
    requires Loading(d, cmd, Checked) && Carries(was, image, d) && GoodImage(p, cmd, image)
    ensures Run(p, d, InstallAndSwitch()) == Some(b) && SwitchedTo(was, b, cmd, image)
  {
    InstallSteps(p, was, d, cmd, image);
    var d1 := InstallStep(d, 0).value;
    var d2 := StoreMarkerStep(d1, 0, true).value;
    b := SetBootStep(p, d2, 0, true, false).value;
    ThreeSteps(p, d, d1, d2, b, Install(0), StoreMarker(0, true), SetBoot(0, true, false));
  }

  function InstallEvents(cmd: Command, image: seq<byte>): seq<Event> {
    OrderAndBegin(cmd) + LoadAndCheck(image) + InstallAndSwitch()
  }

  /** From any quiet device: a good image is loaded, checked and chosen for the next boot. */
  lemma InstallRun(p: Platform, d: Device, cmd: Command, image: seq<byte>) returns (b: Device)
    requires Idle(d) && Orderable(d, cmd) && GoodImage(p, cmd, image)
    ensures Run(p, d, InstallEvents(cmd, image)) == Some(b) && SwitchedTo(d, b, cmd, image)
  {
    var begun := Begins(p, d, cmd);
    var loaded := Loads(p, begun, cmd, image);
    b := InstallsIt(p, d, loaded, cmd, image);
    RunsTogether(p, d, begun, loaded, OrderAndBegin(cmd), LoadAndCheck(image));
    RunsTogether(p, d, loaded, b, OrderAndBegin(cmd) + LoadAndCheck(image), InstallAndSwitch());
  }

  // ---------------------------------------------------------------- from the restart on

  function Success(cmd: Command): Status {
    Status(cmd.requestId, cmd.version, Succeeded, NoError, -1)
  }

  /** The new image runs and nothing is under way but, maybe, its validation. */
  predicate RunsNew(was: Device, d: Device, cmd: Command, image: seq<byte>) {
    && Alive(was) && Alive(d)
    && var r := d.ram.value;
    && d.boot == r.running == Other(was.boot) && r.version == cmd.version
    && d.slots[r.running].flash == image && d.slots[was.boot] == was.slots[was.boot]
    && r.tracker == [Success(cmd)] && r.updates == [] && !r.switchPending && r.web.NoSwitch?
    && r.report.final == Some(Success(cmd))
  }

  lemma RestartSteps(p: Platform, d: Device)
    requires Alive(d) && |d.ram.value.updates| == 1 && d.ram.value.updates[0].stage.Switched?
    ensures ReportRebootingStep(d, 0).Some?
    ensures RestartStep(ReportRebootingStep(d, 0).value, 0) == Some(d.(ram := None))
  {
  }

  lemma BootsNew(p: Platform, was: Device, d: Device, cmd: Command, image: seq<byte>, taskCreated: bool)
    requires SwitchedTo(was, d, cmd, image) && GoodImage(p, cmd, image)
    ensures BootStep(p, d.(ram := None), taskCreated).Some?
    ensures var b := BootStep(p, d.(ram := None), taskCreated).value;
            && RunsNew(was, b, cmd, image) && b.slots[b.boot].img == PendingVerify && b.marker == d.marker
            && b.ram.value.validation == (if taskCreated then Waiting else NotNeeded)
            && b.ram.value.validationPending == taskCreated
            && b.ram.value.report == Report(Some(Success(cmd)), true, false, false, Outside, Outside, 0)
  {
  }

  lemma BootRun(p: Platform, was: Device, d: Device, cmd: Command, image: seq<byte>, taskCreated: bool) returns (b: Device)
    requires SwitchedTo(was, d, cmd, image) && GoodImage(p, cmd, image)
    ensures Some(b) == BootStep(p, d.(ram := None), taskCreated)
    ensures Run(p, d, RestartAndBoot(taskCreated)) == Some(b)
  {
    RestartSteps(p, d);
    BootsNew(p, was, d, cmd, image, taskCreated);
    b := BootStep(p, d.(ram := None), taskCreated).value;
    ThreeSteps(p, d, ReportRebootingStep(d, 0).value, d.(ram := None), b,
               ReportRebooting(0), Restart(0), Boot(taskCreated));
  }

  /** The validation is over, with the state that the running image was left in. */
  predicate Validated(was: Device, d: Device, cmd: Command, image: seq<byte>, img: ImgState, report: Report) {
    && RunsNew(was, d, cmd, image) && d.slots[d.boot].img == img
    && !d.ram.value.validationPending && d.ram.value.report == report
  }

  lemma ValidatesInThree(p: Platform, d: Device, d1: Device, d2: Device, b: Device, ok: bool)
    requires MarkValidStep(d, ok) == Some(d1) && ClearPendingStep(d1) == Some(d2) && FinalReadyStep(d2) == Some(b)
    ensures Run(p, d, ValidateImage(ok)) == Some(b)
  {
    ThreeSteps(p, d, d1, d2, b, MarkAppValid(ok), ClearPending, FinalReady);
  }

  lemma ValidateRun(p: Platform, was: Device, d: Device, cmd: Command, image: seq<byte>, ok: bool) returns (b: Device)
    requires RunsNew(was, d, cmd, image) && d.ram.value.validation.Waiting?
    ensures Run(p, d, ValidateImage(ok)) == Some(b) && b.marker == d.marker
    ensures Validated(was, b, cmd, image, if ok then Valid else d.slots[d.boot].img, d.ram.value.report.(ready := true))
  {
    var d1 := MarkValidStep(d, ok).value;
    var d2 := ClearPendingStep(d1).value;
    b := FinalReadyStep(d2).value;
    ValidatesInThree(p, d, d1, d2, b, ok);
  }

  function Out(report: Report): Report {
    report.(pending := false, validator := ToErase, published := 1)
  }

  predicate ReadyToSend(report: Report) {
    report.pending && report.ready && !report.sending && report.validator.Outside? && report.published == 0
  }

  lemma PublishSteps(was: Device, d: Device, cmd: Command, image: seq<byte>, img: ImgState, report: Report)
    returns (d1: Device, d2: Device, b: Device)
    requires Validated(was, d, cmd, image, img, report) && ReadyToSend(report)
    ensures EnterStep(d, ValidationTask) == Some(d1) && PublishStep(d1, ValidationTask, true) == Some(d2)
    ensures LeaveStep(d2, ValidationTask) == Some(b)
    ensures Validated(was, b, cmd, image, img, Out(report)) && b.marker == d.marker
  {
    d1 := EnterStep(d, ValidationTask).value;
    d2 := PublishStep(d1, ValidationTask, true).value;
    b := LeaveStep(d2, ValidationTask).value;
  }

  lemma PublishesInThree(p: Platform, d: Device, d1: Device, d2: Device, b: Device)
    requires EnterStep(d, ValidationTask) == Some(d1) && PublishStep(d1, ValidationTask, true) == Some(d2)
    requires LeaveStep(d2, ValidationTask) == Some(b)
    ensures Run(p, d, PublishReport()) == Some(b)
  {
    ThreeSteps(p, d, d1, d2, b, EnterPublish(ValidationTask), PublishFinal(ValidationTask, true), LeavePublish(ValidationTask));
  }

  lemma PublishRun(p: Platform, was: Device, d: Device, cmd: Command, image: seq<byte>, img: ImgState, report: Report)
    returns (b: Device)
    requires Validated(was, d, cmd, image, img, report) && ReadyToSend(report)
    ensures Run(p, d, PublishReport()) == Some(b)
    ensures Validated(was, b, cmd, image, img, Out(report)) && b.marker == d.marker
  {
    var d1, d2;
    d1, d2, b := PublishSteps(was, d, cmd, image, img, report);
    PublishesInThree(p, d, d1, d2, b);
  }

  function ReportEvents(): seq<Event> {
    RestartAndBoot(true) + ValidateImage(true) + PublishReport()
  }

  /** The image runs for good and its report is out; the marker is about to go. */
  predicate Reported(was: Device, d: Device, cmd: Command, image: seq<byte>) {
    && Validated(was, d, cmd, image, Valid, Report(Some(Success(cmd)), false, true, false, Outside, ToErase, 1))
    && d.marker == Some(Marker(cmd.requestId, cmd.version, was.ram.value.version, Other(was.boot)))
  }

  lemma ReportRun(p: Platform, was: Device, d: Device, cmd: Command, image: seq<byte>) returns (b: Device)
    requires SwitchedTo(was, d, cmd, image) && GoodImage(p, cmd, image)
    ensures Run(p, d, ReportEvents()) == Some(b) && Reported(was, b, cmd, image)
  {
    BootsNew(p, was, d, cmd, image, true);
    var booted := BootRun(p, was, d, cmd, image, true);
    var valid := ValidateRun(p, was, booted, cmd, image, true);
    b := PublishRun(p, was, valid, cmd, image, Valid, valid.ram.value.report);
    RunsTogether(p, d, booted, valid, RestartAndBoot(true), ValidateImage(true));
    RunsTogether(p, d, valid, b, RestartAndBoot(true) + ValidateImage(true), PublishReport());
  }

  /** The update is over: the new image runs for good, the report went out once and the marker is gone. */
  predicate Settled(was: Device, d: Device, cmd: Command, image: seq<byte>) {
    && d.marker.None?
    && Validated(was, d, cmd, image, Valid, Report(Some(Success(cmd)), false, true, false, Outside, Outside, 1))
  }

  lemma Settles(p: Platform, was: Device, d: Device, cmd: Command, image: seq<byte>) returns (b: Device)
    requires Reported(was, d, cmd, image)
    ensures Run(p, d, [EraseReported(ValidationTask, true)]) == Some(b) && Settled(was, b, cmd, image)
  {
    b := EraseStep(d, ValidationTask, true).value;
    OneStep(p, d, b, EraseReported(ValidationTask, true));
  }

  function WholeUpdate(cmd: Command, image: seq<byte>): seq<Event> {
    InstallEvents(cmd, image) + ReportEvents() + [EraseReported(ValidationTask, true)]
  }

  /**
   From any quiet device, whatever the image that runs and the platform: an update to a good image ends with
   the new image running and marked valid, the report "succeeded" published once and the marker gone.
   */
  lemma GoodUpdateSucceeds(p: Platform, d: Device, cmd: Command, image: seq<byte>)
    requires Idle(d) && Orderable(d, cmd) && GoodImage(p, cmd, image)
    ensures AllRegular(WholeUpdate(cmd, image)) && Run(p, d, WholeUpdate(cmd, image)).Some?
    ensures Settled(d, Run(p, d, WholeUpdate(cmd, image)).value, cmd, image)
  {
    var switched := InstallRun(p, d, cmd, image);
    var reported := ReportRun(p, d, switched, cmd, image);
    var settled := Settles(p, d, reported, cmd, image);
    RunsTogether(p, d, switched, reported, InstallEvents(cmd, image), ReportEvents());
    RunsTogether(p, d, reported, settled, InstallEvents(cmd, image) + ReportEvents(), [EraseReported(ValidationTask, true)]);
    WholeUpdateIsRegular(cmd, image);
  }

  lemma WholeUpdateIsRegular(cmd: Command, image: seq<byte>)
    ensures AllRegular(WholeUpdate(cmd, image))
  {
  }

  // ---------------------------------------------------------------- a switch from the web page gets there too

  /** The report of a switch is that of an update to the version that was read from the slot. */
  function AsCommand(id: RequestId, version: Version): Command {
    Command(id, version, "", "", 0, false)
  }

  function RestartAfterSwitch(): seq<Event> {
    [RestartSwitch, Boot(true)]
  }

  lemma SwitchBoots(p: Platform, was: Device, d: Device, id: RequestId, cmd: Command) returns (b: Device)
    requires SwitchedAway(p, was, id, d) && p.versionOf(was.slots[d.boot].flash) != ""
    requires cmd == AsCommand(id, p.versionOf(was.slots[d.boot].flash))
    ensures BootStep(p, d.(ram := None), true) == Some(b)
    ensures RunsNew(was, b, cmd, was.slots[d.boot].flash) && b.slots[b.boot].img == PendingVerify && b.marker == d.marker
    ensures b.ram.value.validation.Waiting?
    ensures b.ram.value.report == Report(Some(Success(cmd)), true, false, false, Outside, Outside, 0)
  {
    b := BootStep(p, d.(ram := None), true).value;
  }

  lemma SwitchRestarts(p: Platform, was: Device, d: Device, id: RequestId, cmd: Command) returns (b: Device)
    requires SwitchedAway(p, was, id, d) && p.versionOf(was.slots[d.boot].flash) != ""
    requires cmd == AsCommand(id, p.versionOf(was.slots[d.boot].flash))
    ensures Run(p, d, RestartAfterSwitch()) == Some(b)
    ensures RunsNew(was, b, cmd, was.slots[d.boot].flash) && b.slots[b.boot].img == PendingVerify && b.marker == d.marker
    ensures b.ram.value.validation.Waiting?
    ensures b.ram.value.report == Report(Some(Success(cmd)), true, false, false, Outside, Outside, 0)
  {
    b := SwitchBoots(p, was, d, id, cmd);
    var off := d.(ram := None);
    OneStep(p, d, off, RestartSwitch);
    OneStep(p, off, b, Boot(true));
    RunsTogether(p, d, off, b, [RestartSwitch], [Boot(true)]);
  }

  function WholeSwitch(id: RequestId): seq<Event> {
    SwitchSlots(id, false) + RestartAfterSwitch() + ValidateImage(true) + PublishReport() + [EraseReported(ValidationTask, true)]
  }

  lemma WholeSwitchIsRegular(id: RequestId)
    ensures AllRegular(WholeSwitch(id))
  {
  }

  lemma SwitchIsReported(p: Platform, was: Device, booted: Device, cmd: Command, image: seq<byte>)
    returns (valid: Device, reported: Device, settled: Device)
    requires RunsNew(was, booted, cmd, image) && booted.ram.value.validation.Waiting?
    requires booted.ram.value.report == Report(Some(Success(cmd)), true, false, false, Outside, Outside, 0)
    requires booted.marker == Some(Marker(cmd.requestId, cmd.version, was.ram.value.version, Other(was.boot)))
    ensures Run(p, booted, ValidateImage(true)) == Some(valid) && Run(p, valid, PublishReport()) == Some(reported)
    ensures Run(p, reported, [EraseReported(ValidationTask, true)]) == Some(settled) && Settled(was, settled, cmd, image)
  {
    valid := ValidateRun(p, was, booted, cmd, image, true);
    reported := PublishRun(p, was, valid, cmd, image, Valid, valid.ram.value.report);
    settled := Settles(p, was, reported, cmd, image);
  }

  /**
   From any quiet device whose other slot the page offers: the switch ends with that slot running, byte for
   byte, and marked valid, its success published once and the marker gone.
   */
  lemma GoodSwitchSucceeds(p: Platform, d: Device, id: RequestId)
    requires Idle(d) && Switchable(p, d, false) && id != ""
    ensures AllRegular(WholeSwitch(id)) && Run(p, d, WholeSwitch(id)).Some?
    ensures var image := d.slots[Other(d.boot)].flash;
            Settled(d, Run(p, d, WholeSwitch(id)).value, AsCommand(id, p.versionOf(image)), image)
  {
    var image := d.slots[Other(d.boot)].flash;
    var cmd := AsCommand(id, p.versionOf(image));
    var switched := SwitchRun(p, d, id, false);
    var booted := SwitchRestarts(p, d, switched, id, cmd);
    var valid, reported, settled := SwitchIsReported(p, d, booted, cmd, image);
    RunsTogether(p, d, switched, booted, SwitchSlots(id, false), RestartAfterSwitch());
    RunsTogether(p, d, booted, valid, SwitchSlots(id, false) + RestartAfterSwitch(), ValidateImage(true));
    RunsTogether(p, d, valid, reported, SwitchSlots(id, false) + RestartAfterSwitch() + ValidateImage(true), PublishReport());
    RunsTogether(p, d, reported, settled,
                 SwitchSlots(id, false) + RestartAfterSwitch() + ValidateImage(true) + PublishReport(),
                 [EraseReported(ValidationTask, true)]);
    WholeSwitchIsRegular(id);
  }
}
