/**
 The device during an update, as a state machine. One step is one critical section of one of the
 tasks of ota_manager.c (MQTT, download, validation, web), a write to flash or NVS, a power loss or
 the bootloader; the tasks interleave freely and power can go at any moment.
 */
module OtaDevice {
  import opened Wrappers
  import opened OtaTypes
  import opened OtaTracker
  import opened OtaDecide
  import opened OtaBoot

  /** What ESP-IDF makes of the bytes of a partition, and the SHA-256 of the hardware. */
  datatype Platform = Platform(
    imageOk: seq<byte> -> bool,      // a complete image: what esp_ota_end and esp_ota_set_boot_partition check
    versionOf: seq<byte> -> Version, // of its app descriptor, "" when there is none
    sha256Hex: seq<byte> -> string)

  /**
   The bytes of a slot that were last vouched for: those it held at the start, or the last ones to pass
   the size, SHA-256 and image checks of a command. No code reads it.
   */
  datatype Vouch =
    | AtStart(bytes: seq<byte>)
    | Passed(bytes: seq<byte>, size: nat, sha256: string)

  datatype Slot = Slot(flash: seq<byte>, img: ImgState, vouch: Vouch)

  /** Where run_update stands; up to Restarting the task owns the slot that is not running. */
  datatype Stage =
    | Starting                      // accepted, the task not created yet
    | Preparing                     // up to esp_ota_begin
    | Writing(received: seq<byte>)
    | Complete(received: seq<byte>) // all of it read, to be checked
    | Checked                       // esp_ota_end passed
    | ToMark                        // "installing" recorded
    | Marked                        // the marker stored
    | Switched                      // the boot partition set
    | Restarting                    // "rebooting" recorded

  datatype Update = Update(cmd: Command, stage: Stage)

  /** A switch to the other slot from the web page. */
  datatype Web = NoSwitch | Chosen(marker: Marker) | Stored(marker: Marker) | ToRestart

  /** Where a task stands inside try_publish_final. */
  datatype Publisher = Outside | Sending | Sent(ok: bool) | ToErase

  datatype Validation = NotNeeded | Waiting | MarkedValid | Cleared | Finished | GaveUp

  /** The final status of the last update: s_final and the flags around it. */
  datatype Report = Report(
    final: Option<Status>,
    pending: bool,
    ready: bool,
    sending: bool,
    mqtt: Publisher,
    validator: Publisher,
    published: nat) // how often this boot got the final status out; no code reads it

  datatype Ram = Ram(
    running: int,
    version: Version,
    tracker: seq<Status>,
    updates: seq<Update>,
    validation: Validation,
    validationPending: bool,
    report: Report,
    switchPending: bool,
    web: Web)

  datatype Device = Device(
    slots: seq<Slot>,
    boot: int,               // otadata: the slot the bootloader tries first
    marker: Option<Marker>,  // NVS
    promise: Option<Vouch>,  // what the update that stored the marker had checked; no code reads it
    ram: Option<Ram>)        // None: the device is off

  datatype Task = MqttTask | ValidationTask

  /**
   What a command sees of the busy flags, which are read just before the lock is taken: what they are, or
   what they were when another task had not cleared or not set them yet.
   */
  datatype Flags = AsTheyAre | StillSet | NotYetSet

  datatype Event =
    | PowerLoss
    | Boot(taskCreated: bool)
    | OnCommand(cmd: Command, valid: bool, flags: Flags)
    | StartTask(i: nat, ok: bool)
    | DownloadFails(i: nat, error: OtaError)
    | BeginFlash(i: nat)
    | WriteChunk(i: nat, chunk: seq<byte>, rest: seq<byte>)
    | ReportProgress(i: nat, percent: nat)
    | EndOfData(i: nat)
    | CheckImage(i: nat)
    | Install(i: nat)
    | StoreMarker(i: nat, ok: bool)
    | SetBoot(i: nat, ok: bool, erased: bool)
    | ReportRebooting(i: nat)
    | Restart(i: nat)
    | MarkAppValid(ok: bool)
    | ClearPending
    | FinalReady
    | RollBackNow(ok: bool)
    | EnterPublish(who: Task)
    | PublishFinal(who: Task, ok: bool)
    | LeavePublish(who: Task)
    | EraseReported(who: Task, erased: bool)
    | ChooseSwitch(id: RequestId, stale: bool)
    | StoreSwitch(ok: bool)
    | SetBootSwitch(ok: bool, erased: bool)
    | RestartSwitch

  // ---------------------------------------------------------------- vocabulary

  function Other(s: int): int { 1 - s }

  function RunVersion(p: Platform, flash: seq<byte>): Version {
    if p.versionOf(flash) == "" then "unknown" else p.versionOf(flash)
  }

  function RunStatus(cmd: Command, state: OtaState, progress: int): Status {
    Status(cmd.requestId, cmd.version, state, NoError, progress)
  }

  function Record(r: Ram, st: Status): Ram {
    r.(tracker := Updated(r.tracker, st))
  }

  function AtStage(r: Ram, i: nat, stage: Stage): Ram
    requires i < |r.updates|
  {
    r.(updates := r.updates[i := r.updates[i].(stage := stage)])
  }

  /** fail(): the update ended without rebooting. */
  function Fail(r: Ram, i: nat, error: OtaError): Ram
    requires i < |r.updates|
  {
    var cmd := r.updates[i].cmd;
    Record(r, Status(cmd.requestId, cmd.version, Failed, error, -1))
    .(updates := r.updates[..i] + r.updates[i + 1..])
  }

  function MarkerOf(r: Ram, cmd: Command): Marker {
    Marker(cmd.requestId, cmd.version, r.version, Other(r.running))
  }

  predicate AnyActive(t: seq<Status>) {
    exists k :: 0 <= k < |t| && IsActive(t[k].state)
  }

  predicate DeviceBusy(r: Ram) {
    AnyActive(r.tracker) || r.validationPending || r.switchPending
  }

  /** ota_prev_decide: the other slot is offered when readable, not marked bad, of another version. */
  predicate Offered(p: Platform, s: Slot, running: Version) {
    p.versionOf(s.flash) != "" && s.img !in {Invalid, New, PendingVerify} && p.versionOf(s.flash) != running
  }

  function PublisherOf(r: Report, who: Task): Publisher {
    if who == MqttTask then r.mqtt else r.validator
  }

  function WithPublisher(r: Report, who: Task, at: Publisher): Report {
    if who == MqttTask then r.(mqtt := at) else r.(validator := at)
  }

  predicate TwoSlots(d: Device) {
    |d.slots| == 2 && d.boot in {0, 1} && (d.ram.Some? ==> d.ram.value.running in {0, 1})
  }

  predicate Alive(d: Device) {
    TwoSlots(d) && d.ram.Some?
  }

  predicate UpdateAt(d: Device, i: nat) {
    Alive(d) && i < |d.ram.value.updates|
  }

  // ---------------------------------------------------------------- the steps

  /** A new image runs pending its validation; one that boots pending again is given up. */
  function Bootloader(d: Device): Device
    requires TwoSlots(d)
  {
    match d.slots[d.boot].img
    case New => d.(slots := d.slots[d.boot := d.slots[d.boot].(img := PendingVerify)])
    case PendingVerify => d.(slots := d.slots[d.boot := d.slots[d.boot].(img := Invalid)], boot := Other(d.boot))
    case _ => d
  }

  function ReportOf(m: Marker, version: Version, running: int): Status {
    var plan := BootDecide(Some(m), Some(version), running, Valid);
    Status(m.requestId, m.targetVersion, plan.state, plan.error, -1)
  }

  /** The variables after ota_manager_init; `taskCreated` says whether the validation task could be created. */
  function InitialRam(running: int, version: Version, img: ImgState, marker: Option<Marker>, taskCreated: bool): Ram {
    var plan := BootDecide(marker, Some(version), running, img);
    var report := marker.Some? && plan.report;
    var final := if report then Some(ReportOf(marker.value, version, running)) else None;
    var waiting := plan.validate && taskCreated;
    Ram(running, version, if report then Updated([], final.value) else [], [],
        if waiting then Waiting else NotNeeded, waiting,
        Report(final, report, report && !plan.validate, false, Outside, Outside, 0),
        false, NoSwitch)
  }

  function Init(p: Platform, d: Device, taskCreated: bool): Device
    requires TwoSlots(d)
  {
    var img := d.slots[d.boot].img;
    var version := RunVersion(p, d.slots[d.boot].flash);
    var plan := BootDecide(d.marker, Some(version), d.boot, img);
    d.(marker := if plan.clearMarker then None else d.marker,
       ram := Some(InitialRam(d.boot, version, img, d.marker, taskCreated)))
  }

  function BootStep(p: Platform, d: Device, taskCreated: bool): Option<Device> {
    if TwoSlots(d) && d.ram.None? then Some(Init(p, Bootloader(d), taskCreated)) else None
  }

  /** What ota_decide is told of the device. */
  function EnvOf(r: Ram, flags: Flags): Env {
    var busy := match flags
                case AsTheyAre => r.validationPending || r.switchPending
                case StillSet => true
                case NotYetSet => false;
    Env(Some(r.version), busy, OTA_SLOT_SIZE)
  }

  function CommandStep(d: Device, cmd: Command, valid: bool, flags: Flags): Option<Device> {
    if !Alive(d) then None
    else
      var r := d.ram.value;
      var h := Handle(r.tracker, cmd, valid, EnvOf(r, flags));
      Some(d.(ram := Some(r.(tracker := h.tracker,
                             updates := if h.started then r.updates + [Update(cmd, Starting)] else r.updates))))
  }

  function StartStep(d: Device, i: nat, ok: bool): Option<Device> {
    if !UpdateAt(d, i) || !d.ram.value.updates[i].stage.Starting? then None
    else
      var r := d.ram.value;
      Some(d.(ram := Some(if ok then AtStage(r, i, Preparing) else Fail(r, i, NoMemory))))
  }

  /** Any failure up to the checks; what was written stays in the slot. */
  function DownloadFailsStep(d: Device, i: nat, error: OtaError): Option<Device> {
    if UpdateAt(d, i) && (var s := d.ram.value.updates[i].stage; s.Preparing? || s.Writing? || s.Complete?)
    then Some(d.(ram := Some(Fail(d.ram.value, i, error))))
    else None
  }

  /** Sequential writes erase sector by sector, so the slot keeps its bytes until the first chunk. */
  function BeginFlashStep(d: Device, i: nat): Option<Device> {
    if !UpdateAt(d, i) || !d.ram.value.updates[i].stage.Preparing? then None
    else
      var r := d.ram.value;
      Some(d.(ram := Some(Record(AtStage(r, i, Writing([])), RunStatus(r.updates[i].cmd, Downloading, 0)))))
  }

  /** Writes the next bytes; `rest` is whatever the erased and the stale sectors after them hold. */
  function WriteStep(d: Device, i: nat, chunk: seq<byte>, rest: seq<byte>): Option<Device> {
    if !UpdateAt(d, i) || !d.ram.value.updates[i].stage.Writing? then None
    else
      var r := d.ram.value;
      var all := r.updates[i].stage.received + chunk;
      if chunk == [] || |all| > r.updates[i].cmd.size || |all| + |rest| > OTA_SLOT_SIZE then None
      else
        var o := Other(r.running);
        Some(d.(slots := d.slots[o := d.slots[o].(flash := all + rest)],
                ram := Some(AtStage(r, i, Writing(all)))))
  }

  function ProgressStep(d: Device, i: nat, percent: nat): Option<Device> {
    if !UpdateAt(d, i) || !d.ram.value.updates[i].stage.Writing? then None
    else
      var r := d.ram.value;
      var last := Lookup(r.tracker, r.updates[i].cmd.requestId);
      if last.Some? && last.value.progress < percent <= 100
      then Some(d.(ram := Some(Record(r, RunStatus(r.updates[i].cmd, Downloading, percent)))))
      else None
  }

  function EndOfDataStep(d: Device, i: nat): Option<Device> {
    if !UpdateAt(d, i) || !d.ram.value.updates[i].stage.Writing? then None
    else
      var r := d.ram.value;
      Some(d.(ram := Some(Record(AtStage(r, i, Complete(r.updates[i].stage.received)),
                                 RunStatus(r.updates[i].cmd, Verifying, -1)))))
  }

  /** ota_verify_image and esp_ota_end both passed. A command that parses announces at least one byte. */
  function CheckStep(p: Platform, d: Device, i: nat): Option<Device> {
    if !UpdateAt(d, i) || !d.ram.value.updates[i].stage.Complete? then None
    else
      var r := d.ram.value;
      var cmd := r.updates[i].cmd;
      var o := Other(r.running);
      var received := r.updates[i].stage.received;
      if 0 < |received| == cmd.size && p.sha256Hex(received) == cmd.sha256 && p.imageOk(d.slots[o].flash)
      then Some(d.(slots := d.slots[o := d.slots[o].(vouch := Passed(d.slots[o].flash, cmd.size, cmd.sha256))],
                   ram := Some(AtStage(r, i, Checked))))
      else None
  }

  function InstallStep(d: Device, i: nat): Option<Device> {
    if !UpdateAt(d, i) || !d.ram.value.updates[i].stage.Checked? then None
    else
      var r := d.ram.value;
      Some(d.(ram := Some(Record(AtStage(r, i, ToMark), RunStatus(r.updates[i].cmd, Installing, -1)))))
  }

  function StoreMarkerStep(d: Device, i: nat, ok: bool): Option<Device> {
    if !UpdateAt(d, i) || !d.ram.value.updates[i].stage.ToMark? then None
    else
      var r := d.ram.value;
      var cmd := r.updates[i].cmd;
      if ok then Some(d.(marker := Some(MarkerOf(r, cmd)), promise := Some(d.slots[Other(r.running)].vouch),
                         ram := Some(AtStage(r, i, Marked))))
      else Some(d.(ram := Some(Fail(r, i, FlashError))))
  }

  /** esp_ota_set_boot_partition: refuses an incomplete image, and otadata starts as new. */
  function Switch(d: Device, o: int): Device
    requires |d.slots| == 2 && o in {0, 1}
  {
    d.(slots := d.slots[o := d.slots[o].(img := New)], boot := o)
  }

  function SetBootStep(p: Platform, d: Device, i: nat, ok: bool, erased: bool): Option<Device> {
    if !UpdateAt(d, i) || !d.ram.value.updates[i].stage.Marked? then None
    else
      var r := d.ram.value;
      var o := Other(r.running);
      if ok then
        if p.imageOk(d.slots[o].flash) then Some(Switch(d, o).(ram := Some(AtStage(r, i, Switched)))) else None
      else Some(d.(marker := if erased then None else d.marker, ram := Some(Fail(r, i, FlashError))))
  }

  function ReportRebootingStep(d: Device, i: nat): Option<Device> {
    if !UpdateAt(d, i) || !d.ram.value.updates[i].stage.Switched? then None
    else
      var r := d.ram.value;
      Some(d.(ram := Some(Record(AtStage(r, i, Restarting), RunStatus(r.updates[i].cmd, Rebooting, -1)))))
  }

  function RestartStep(d: Device, i: nat): Option<Device> {
    if UpdateAt(d, i) && d.ram.value.updates[i].stage.Restarting? then Some(d.(ram := None)) else None
  }

  function MarkValidStep(d: Device, ok: bool): Option<Device> {
    if !Alive(d) || !d.ram.value.validation.Waiting? then None
    else
      var r := d.ram.value;
      var slots := if ok then d.slots[r.running := d.slots[r.running].(img := Valid)] else d.slots;
      Some(d.(slots := slots, ram := Some(r.(validation := MarkedValid))))
  }

  function ClearPendingStep(d: Device): Option<Device> {
    if !Alive(d) || !d.ram.value.validation.MarkedValid? then None
    else Some(d.(ram := Some(d.ram.value.(validation := Cleared, validationPending := false))))
  }

  function FinalReadyStep(d: Device): Option<Device> {
    if !Alive(d) || !d.ram.value.validation.Cleared? then None
    else
      var r := d.ram.value;
      Some(d.(ram := Some(r.(validation := Finished, report := r.report.(ready := true)))))
  }

  /** esp_ota_mark_app_invalid_rollback_and_reboot; it returns only when it could not. */
  function RollBackStep(p: Platform, d: Device, ok: bool): Option<Device> {
    if !Alive(d) || !d.ram.value.validation.Waiting? then None
    else
      var r := d.ram.value;
      if ok then
        if p.imageOk(d.slots[Other(r.running)].flash)
        then Some(d.(slots := d.slots[r.running := d.slots[r.running].(img := Invalid)],
                     boot := Other(r.running), ram := None))
        else None
      else Some(d.(ram := Some(r.(validation := GaveUp))))
  }

  function EnterStep(d: Device, who: Task): Option<Device> {
    if !Alive(d) || !PublisherOf(d.ram.value.report, who).Outside? then None
    else
      var r := d.ram.value.report;
      if r.pending && r.ready && !r.sending
      then Some(d.(ram := Some(d.ram.value.(report := WithPublisher(r.(sending := true), who, Sending)))))
      else Some(d)
  }

  function PublishStep(d: Device, who: Task, ok: bool): Option<Device> {
    if !Alive(d) || !PublisherOf(d.ram.value.report, who).Sending? then None
    else
      var r := d.ram.value.report;
      var count := r.published + if ok then 1 else 0;
      Some(d.(ram := Some(d.ram.value.(report := WithPublisher(r.(published := count), who, Sent(ok))))))
  }

  function LeaveStep(d: Device, who: Task): Option<Device> {
    if !Alive(d) || !PublisherOf(d.ram.value.report, who).Sent? then None
    else
      var r := d.ram.value.report;
      var ok := PublisherOf(r, who).ok;
      var done := r.(sending := false, pending := r.pending && !ok);
      Some(d.(ram := Some(d.ram.value.(report := WithPublisher(done, who, if ok then ToErase else Outside)))))
  }

  /** The erase runs after the lock was dropped, and a failed one is only logged. */
  function EraseStep(d: Device, who: Task, erased: bool): Option<Device> {
    if !Alive(d) || !PublisherOf(d.ram.value.report, who).ToErase? then None
    else
      var r := d.ram.value;
      Some(d.(marker := if erased then None else d.marker,
              ram := Some(r.(report := WithPublisher(r.report, who, Outside)))))
  }

  /**
   ota_manager_switch_slot up to the flag that makes commands busy. `stale` is the corner in which
   the busy test was answered before another task started something.
   */
  function ChooseStep(p: Platform, d: Device, id: RequestId, stale: bool): Option<Device> {
    if !Alive(d) || !d.ram.value.web.NoSwitch? then None
    else
      var r := d.ram.value;
      var o := Other(r.running);
      if id == "" || (!stale && DeviceBusy(r)) || !Offered(p, d.slots[o], r.version) then None
      else Some(d.(ram := Some(r.(switchPending := true,
                                  web := Chosen(Marker(id, p.versionOf(d.slots[o].flash), r.version, o))))))
  }

  function StoreSwitchStep(d: Device, ok: bool): Option<Device> {
    if !Alive(d) || !d.ram.value.web.Chosen? then None
    else
      var r := d.ram.value;
      if ok then Some(d.(marker := Some(r.web.marker), promise := None, ram := Some(r.(web := Stored(r.web.marker)))))
      else Some(d.(ram := Some(r.(switchPending := false, web := NoSwitch))))
  }

  function SetBootSwitchStep(p: Platform, d: Device, ok: bool, erased: bool): Option<Device> {
    if !Alive(d) || !d.ram.value.web.Stored? then None
    else
      var r := d.ram.value;
      var o := Other(r.running);
      if ok then
        if p.imageOk(d.slots[o].flash) then Some(Switch(d, o).(ram := Some(r.(web := ToRestart)))) else None
      else Some(d.(marker := if erased then None else d.marker,
                   ram := Some(r.(switchPending := false, web := NoSwitch))))
  }

  function RestartSwitchStep(d: Device): Option<Device> {
    if Alive(d) && d.ram.value.web.ToRestart? then Some(d.(ram := None)) else None
  }

  /** The device after `e`, None when `e` cannot happen there. */
  function Next(p: Platform, d: Device, e: Event): Option<Device> {
    match e
    case PowerLoss => Some(d.(ram := None))
    case Boot(taskCreated) => BootStep(p, d, taskCreated)
    case OnCommand(cmd, valid, flags) => CommandStep(d, cmd, valid, flags)
    case StartTask(i, ok) => StartStep(d, i, ok)
    case DownloadFails(i, error) => DownloadFailsStep(d, i, error)
    case BeginFlash(i) => BeginFlashStep(d, i)
    case WriteChunk(i, chunk, rest) => WriteStep(d, i, chunk, rest)
    case ReportProgress(i, percent) => ProgressStep(d, i, percent)
    case EndOfData(i) => EndOfDataStep(d, i)
    case CheckImage(i) => CheckStep(p, d, i)
    case Install(i) => InstallStep(d, i)
    case StoreMarker(i, ok) => StoreMarkerStep(d, i, ok)
    case SetBoot(i, ok, erased) => SetBootStep(p, d, i, ok, erased)
    case ReportRebooting(i) => ReportRebootingStep(d, i)
    case Restart(i) => RestartStep(d, i)
    case MarkAppValid(ok) => MarkValidStep(d, ok)
    case ClearPending => ClearPendingStep(d)
    case FinalReady => FinalReadyStep(d)
    case RollBackNow(ok) => RollBackStep(p, d, ok)
    case EnterPublish(who) => EnterStep(d, who)
    case PublishFinal(who, ok) => PublishStep(d, who, ok)
    case LeavePublish(who) => LeaveStep(d, who)
    case EraseReported(who, erased) => EraseStep(d, who, erased)
    case ChooseSwitch(id, stale) => ChooseStep(p, d, id, stale)
    case StoreSwitch(ok) => StoreSwitchStep(d, ok)
    case SetBootSwitch(ok, erased) => SetBootSwitchStep(p, d, ok, erased)
    case RestartSwitch => RestartSwitchStep(d)
  }

  function Run(p: Platform, d: Device, es: seq<Event>): Option<Device>
    decreases |es|
  {
    if es == [] then Some(d)
    else match Next(p, d, es[0]) case None => None case Some(d') => Run(p, d', es[1..])
  }

  /**
   The corners the guarantees leave out: a validation task that cannot be created, a running image
   that cannot be marked valid, and a switch or a command whose busy test is overtaken.
   */
  predicate Regular(e: Event) {
    match e
    case Boot(taskCreated) => taskCreated
    case MarkAppValid(ok) => ok
    case ChooseSwitch(_, stale) => !stale
    case OnCommand(_, _, flags) => flags != NotYetSet
    case _ => true
  }

  predicate AllRegular(es: seq<Event>) {
    forall k :: 0 <= k < |es| ==> Regular(es[k])
  }
}
