/** What every step of the device keeps. */
module OtaInvariant {
  import opened Wrappers
  import opened OtaTypes
  import opened OtaTracker
  import opened OtaDecide
  import opened OtaDevice

  // ---------------------------------------------------------------- what survives a power loss

  /** The boot slot holds an image that has not proved itself yet: the other one is the way back. */
  predicate OnTrial(d: Device)
    requires TwoSlots(d)
  {
    d.slots[d.boot].img in {New, PendingVerify}
  }

  /** The bootloader finds a complete image, and a complete one to go back to while on trial. */
  predicate Bootable(p: Platform, d: Device)
    requires TwoSlots(d)
  {
    && p.imageOk(d.slots[d.boot].flash) && d.slots[d.boot].img != Invalid
    && (OnTrial(d) ==> p.imageOk(d.slots[Other(d.boot)].flash) && d.slots[Other(d.boot)].img in {Valid, Undefined})
  }

  /** `s` is the slot the marker promised, or runs the version the marker says was there before. */
  predicate Accounted(p: Platform, d: Device, m: Marker, s: int)
    requires TwoSlots(d) && s in {0, 1}
  {
    s == m.targetSlot || RunVersion(p, d.slots[s].flash) == m.previousVersion
  }

  /** The marker explains every slot the bootloader may run next. */
  predicate MarkerExplains(p: Platform, d: Device)
    requires TwoSlots(d)
  {
    d.marker.Some? ==>
      && d.marker.value.targetSlot in {0, 1}
      && Accounted(p, d, d.marker.value, d.boot)
      && (OnTrial(d) ==> Accounted(p, d, d.marker.value, Other(d.boot)))
  }

  /** The bytes vouched for did pass the checks. */
  predicate Holds(p: Platform, v: Vouch) {
    v.Passed? ==> v.size <= |v.bytes| && p.sha256Hex(v.bytes[..v.size]) == v.sha256 && p.imageOk(v.bytes)
  }

  predicate IsVouched(s: Slot) {
    s.flash == s.vouch.bytes
  }

  /** If `s` is the slot the marker promised, it holds exactly the image that was checked for it. */
  predicate KeptFor(d: Device, s: int)
    requires TwoSlots(d) && s in {0, 1}
  {
    d.marker.Some? && d.promise.Some? && s == d.marker.value.targetSlot ==>
      d.promise.value.Passed? && d.slots[s].vouch == d.promise.value && IsVouched(d.slots[s])
  }

  predicate PromiseKept(p: Platform, d: Device)
    requires TwoSlots(d)
  {
    && Holds(p, d.slots[0].vouch) && Holds(p, d.slots[1].vouch)
    && KeptFor(d, d.boot) && (OnTrial(d) ==> KeptFor(d, Other(d.boot)))
  }

  predicate Durable(p: Platform, d: Device) {
    TwoSlots(d) && Bootable(p, d) && MarkerExplains(p, d) && PromiseKept(p, d)
  }

  // ---------------------------------------------------------------- while the device runs

  predicate Switching(r: Ram) {
    r.web.ToRestart? || (|r.updates| == 1 && (r.updates[0].stage.Switched? || r.updates[0].stage.Restarting?))
  }

  predicate Trial(d: Device)
    requires Alive(d)
  {
    d.slots[d.ram.value.running].img == PendingVerify
  }

  predicate RunsAnImage(p: Platform, d: Device)
    requires Alive(d)
  {
    var r := d.ram.value;
    var s := d.slots[r.running];
    && p.imageOk(s.flash) && r.version == RunVersion(p, s.flash)
    && s.img in {Valid, Undefined, PendingVerify}
    && (if Switching(r) then d.boot == Other(r.running) && d.slots[d.boot].img == New else d.boot == r.running)
  }

  /** Nothing is under way while the running image is on trial. */
  predicate TrialIsQuiet(d: Device)
    requires Alive(d)
  {
    var r := d.ram.value;
    && (Trial(d) ==> r.validationPending)
    && (r.validationPending ==> !r.report.ready)
    && (Trial(d) <== r.validation in {Waiting, GaveUp})
    && (Trial(d) ==> r.validation in {Waiting, GaveUp})
    && (r.validation in {Waiting, GaveUp, MarkedValid} <==> r.validationPending)
    && (r.validationPending ==> r.updates == [] && r.web.NoSwitch?)
  }

  function StateAt(stage: Stage): OtaState {
    match stage
    case Starting => Accepted
    case Preparing => Accepted
    case Writing(_) => Downloading
    case Complete(_) => Verifying
    case Checked => Verifying
    case ToMark => Installing
    case Marked => Installing
    case Switched => Installing
    case Restarting => Rebooting
  }

  /** One update at most, and it is the one request in flight. */
  predicate OneUpdate(r: Ram) {
    && |r.updates| <= 1
    && WellFormed(r.tracker)
    && (forall k :: 0 <= k < |r.tracker| && IsActive(r.tracker[k].state) ==>
          |r.updates| == 1 && r.tracker[k].requestId == r.updates[0].cmd.requestId)
    && (|r.updates| == 1 ==>
          && Lookup(r.tracker, r.updates[0].cmd.requestId).Some?
          && Lookup(r.tracker, r.updates[0].cmd.requestId).value.state == StateAt(r.updates[0].stage))
    && (r.switchPending <==> !r.web.NoSwitch?)
    && (r.switchPending ==> r.updates == [])
  }

  /** What is in the other slot and in NVS at each stage of an update. */
  predicate StageHolds(d: Device)
    requires Alive(d) && |d.ram.value.updates| == 1
  {
    var r := d.ram.value;
    var u := r.updates[0];
    var o := d.slots[Other(r.running)];
    && u.cmd.size <= OTA_SLOT_SIZE
    && match u.stage
       case Starting => true
       case Preparing => true
       case Writing(received) => |received| <= u.cmd.size && received <= o.flash
       case Complete(received) => |received| <= u.cmd.size && received <= o.flash
       case Checked => o.vouch == Passed(o.flash, u.cmd.size, u.cmd.sha256)
       case ToMark => o.vouch == Passed(o.flash, u.cmd.size, u.cmd.sha256)
       case _ =>
         && o.vouch == Passed(o.flash, u.cmd.size, u.cmd.sha256)
         && (d.marker.Some? ==> d.marker.value == MarkerOf(r, u.cmd) && d.promise == Some(o.vouch))
  }

  predicate SwitchHolds(p: Platform, d: Device)
    requires Alive(d)
  {
    var r := d.ram.value;
    match r.web
    case NoSwitch => true
    case Chosen(m) => m.targetSlot == Other(r.running) && m.previousVersion == r.version
    case Stored(m) =>
      && m.targetSlot == Other(r.running) && m.previousVersion == r.version
      && (d.marker.Some? ==> d.marker.value == m && d.promise == None)
    case ToRestart => true
  }

  // ---------------------------------------------------------------- the final report

  predicate IsSending(r: Report, who: Task) {
    PublisherOf(r, who).Sending? || PublisherOf(r, who).Sent?
  }

  predicate HasSent(r: Report, who: Task) {
    PublisherOf(r, who) == Sent(true)
  }

  /** One task at a time publishes, only what is ready, and never again once it went out. */
  predicate OneReport(r: Report) {
    && r.published <= 1
    && (r.pending ==> r.final.Some?)
    && (r.sending <==> IsSending(r, MqttTask) || IsSending(r, ValidationTask))
    && !(IsSending(r, MqttTask) && IsSending(r, ValidationTask))
    && (r.sending ==> r.pending && r.ready)
    && (r.published == 1 ==> r.ready)
    && (r.published == 1 <==> r.final.Some? && (!r.pending || HasSent(r, MqttTask) || HasSent(r, ValidationTask)))
    && (r.mqtt.ToErase? || r.validator.ToErase? ==> r.final.Some? && !r.pending)
  }

  predicate Inv(p: Platform, d: Device) {
    && Durable(p, d)
    && (d.ram.Some? ==>
          && RunsAnImage(p, d)
          && TrialIsQuiet(d)
          && OneUpdate(d.ram.value)
          && (|d.ram.value.updates| == 1 ==> StageHolds(d))
          && SwitchHolds(p, d)
          && OneReport(d.ram.value.report))
  }

  // ---------------------------------------------------------------- tracker facts the steps need

  lemma NoActiveMeansNoUpdate(r: Ram)
    requires OneUpdate(r) && !AnyActive(r.tracker)
    ensures r.updates == []
  {
    if |r.updates| == 1 {
      var k := IndexOf(r.tracker, r.updates[0].cmd.requestId);
      assert IsActive(r.tracker[k].state);
    }
  }

  lemma OneActive(r: Ram)
    requires OneUpdate(r)
    ensures AtMostOneActive(r.tracker)
  {
  }

  /** The update moves on: its entry follows, everything else in the record stays inactive. */
  lemma RecordFollows(r: Ram, st: Status, after: Ram)
    requires OneUpdate(r) && |r.updates| == 1 && st.requestId == r.updates[0].cmd.requestId
    requires after.tracker == Updated(r.tracker, st)
    requires after.switchPending == r.switchPending && after.web == r.web
    requires || (after.updates == [] && !IsActive(st.state))
             || (|after.updates| == 1 && after.updates[0].cmd == r.updates[0].cmd && st.state == StateAt(after.updates[0].stage))
    ensures OneUpdate(after)
  {
    UpdatedKeepsWellFormed(r.tracker, st);
    OneActive(r);
    UpdateByRequest(r.tracker, st, st.requestId);
    forall k | 0 <= k < |after.tracker| && IsActive(after.tracker[k].state)
      ensures |after.updates| == 1 && after.tracker[k].requestId == r.updates[0].cmd.requestId
    {
      LookupIsTheEntry(after.tracker, k);
      UpdateByRequest(r.tracker, st, after.tracker[k].requestId);
    }
  }

  function AfterCommand(r: Ram, cmd: Command, h: Handled): Ram {
    r.(tracker := h.tracker, updates := if h.started then r.updates + [Update(cmd, Starting)] else r.updates)
  }

  lemma AcceptKeepsOneUpdate(r: Ram, cmd: Command, valid: bool, env: Env)
    requires OneUpdate(r) && (r.validationPending || r.switchPending ==> env.deviceBusy)
    requires Handle(r.tracker, cmd, valid, env).started
    ensures OneUpdate(AfterCommand(r, cmd, Handle(r.tracker, cmd, valid, env)))
    ensures r.updates == [] && !r.validationPending && !r.switchPending
  {
    var h := Handle(r.tracker, cmd, valid, env);
    OneActive(r);
    HandleKeepsTheRecord(r.tracker, cmd, valid, env);
    NoActiveMeansNoUpdate(r);
    forall k | 0 <= k < |h.tracker| && IsActive(h.tracker[k].state)
      ensures h.tracker[k].requestId == cmd.requestId
    {
      LookupIsTheEntry(h.tracker, k);
      UpdateByRequest(r.tracker, h.answer, h.tracker[k].requestId);
    }
  }

  lemma RejectKeepsOneUpdate(r: Ram, st: Status)
    requires OneUpdate(r) && IndexOf(r.tracker, st.requestId) < 0 && !IsActive(st.state)
    ensures OneUpdate(r.(tracker := Updated(r.tracker, st)))
  {
    OneActive(r);
    UpdatedKeepsWellFormed(r.tracker, st);
    var after := Updated(r.tracker, st);
    forall k | 0 <= k < |after| && IsActive(after[k].state)
      ensures |r.updates| == 1 && after[k].requestId == r.updates[0].cmd.requestId
    {
      LookupIsTheEntry(after, k);
      UpdateByRequest(r.tracker, st, after[k].requestId);
    }
    if |r.updates| == 1 {
      UpdateByRequest(r.tracker, st, r.updates[0].cmd.requestId);
    }
  }

  lemma CommandKeepsOneUpdate(r: Ram, cmd: Command, valid: bool, env: Env)
    requires OneUpdate(r) && (r.validationPending || r.switchPending ==> env.deviceBusy) && env.slotSize == OTA_SLOT_SIZE
    ensures var h := Handle(r.tracker, cmd, valid, env);
            var after := AfterCommand(r, cmd, h);
            && OneUpdate(after)
            && (if h.started then r.updates == [] && after.updates == [Update(cmd, Starting)] && cmd.size <= OTA_SLOT_SIZE
                                  && !r.validationPending && !r.switchPending
                else after.updates == r.updates)
            && after == r.(tracker := after.tracker, updates := after.updates)
  {
    var h := Handle(r.tracker, cmd, valid, env);
    if h.started {
      AcceptKeepsOneUpdate(r, cmd, valid, env);
    } else if Decide(r.tracker, cmd, valid, env).Reject? {
      RejectKeepsOneUpdate(r, h.answer);
      assert AfterCommand(r, cmd, h) == r.(tracker := Updated(r.tracker, h.answer));
    } else {
      assert AfterCommand(r, cmd, h) == r;
    }
  }

  // ---------------------------------------------------------------- step by step

  lemma BootloaderKeeps(p: Platform, d: Device)
    requires Durable(p, d)
    ensures var b := Bootloader(d);
            && Durable(p, b) && b.ram == d.ram && b.marker == d.marker
            && b.slots[b.boot].img in {Valid, Undefined, PendingVerify}
  {
  }

  lemma InitialRamIsSound(running: int, version: Version, img: ImgState, marker: Option<Marker>)
    ensures var r := InitialRam(running, version, img, marker, true);
            && OneUpdate(r) && r.updates == [] && r.web.NoSwitch? && OneReport(r.report)
            && r.running == running && r.version == version
            && r.validation == (if img in {PendingVerify, New} then Waiting else NotNeeded)
            && r.validationPending == (img in {PendingVerify, New}) && (r.validationPending ==> !r.report.ready)
  {
  }

  lemma InitKeeps(p: Platform, b: Device)
    requires Durable(p, b) && b.ram.None? && b.slots[b.boot].img in {Valid, Undefined, PendingVerify}
    ensures Inv(p, Init(p, b, true))
  {
    InitialRamIsSound(b.boot, RunVersion(p, b.slots[b.boot].flash), b.slots[b.boot].img, b.marker);
    assert Durable(p, Init(p, b, true));
  }

  lemma CommandKeeps(p: Platform, d: Device, cmd: Command, valid: bool, flags: Flags)
    requires Inv(p, d) && CommandStep(d, cmd, valid, flags).Some? && flags != NotYetSet
    ensures Inv(p, CommandStep(d, cmd, valid, flags).value)
  {
    var r := d.ram.value;
    var env := EnvOf(r, flags);
    CommandKeepsOneUpdate(r, cmd, valid, env);
    var after := AfterCommand(r, cmd, Handle(r.tracker, cmd, valid, env));
    assert CommandStep(d, cmd, valid, flags).value == d.(ram := Some(after));
  }

  lemma StartKeeps(p: Platform, d: Device, i: nat, ok: bool)
    requires Inv(p, d) && StartStep(d, i, ok).Some?
    ensures Inv(p, StartStep(d, i, ok).value)
  {
    var r := d.ram.value;
    var cmd := r.updates[0].cmd;
    if !ok {
      RecordFollows(r, Status(cmd.requestId, cmd.version, Failed, NoMemory, -1), StartStep(d, i, ok).value.ram.value);
    }
  }

  lemma DownloadFailsKeeps(p: Platform, d: Device, i: nat, error: OtaError)
    requires Inv(p, d) && DownloadFailsStep(d, i, error).Some?
    ensures Inv(p, DownloadFailsStep(d, i, error).value)
  {
    var r := d.ram.value;
    var cmd := r.updates[0].cmd;
    RecordFollows(r, Status(cmd.requestId, cmd.version, Failed, error, -1), DownloadFailsStep(d, i, error).value.ram.value);
  }

  lemma BeginFlashKeeps(p: Platform, d: Device, i: nat)
    requires Inv(p, d) && BeginFlashStep(d, i).Some?
    ensures Inv(p, BeginFlashStep(d, i).value)
  {
    var r := d.ram.value;
    var cmd := r.updates[0].cmd;
    RecordFollows(r, RunStatus(cmd, Downloading, 0), BeginFlashStep(d, i).value.ram.value);
  }

  lemma WriteKeeps(p: Platform, d: Device, i: nat, chunk: seq<byte>, rest: seq<byte>)
    requires Inv(p, d) && WriteStep(d, i, chunk, rest).Some?
    ensures Inv(p, WriteStep(d, i, chunk, rest).value)
  {
  }

  lemma ProgressKeeps(p: Platform, d: Device, i: nat, percent: nat)
    requires Inv(p, d) && ProgressStep(d, i, percent).Some?
    ensures Inv(p, ProgressStep(d, i, percent).value)
  {
    var r := d.ram.value;
    var cmd := r.updates[0].cmd;
    RecordFollows(r, RunStatus(cmd, Downloading, percent), ProgressStep(d, i, percent).value.ram.value);
  }

  lemma EndOfDataKeeps(p: Platform, d: Device, i: nat)
    requires Inv(p, d) && EndOfDataStep(d, i).Some?
    ensures Inv(p, EndOfDataStep(d, i).value)
  {
    var r := d.ram.value;
    var cmd := r.updates[0].cmd;
    RecordFollows(r, RunStatus(cmd, Verifying, -1), EndOfDataStep(d, i).value.ram.value);
  }

  lemma CheckKeeps(p: Platform, d: Device, i: nat)
    requires Inv(p, d) && CheckStep(p, d, i).Some?
    ensures Inv(p, CheckStep(p, d, i).value)
  {
    var r := d.ram.value;
    var cmd := r.updates[0].cmd;
    assert r.updates[0].stage.received == d.slots[Other(r.running)].flash[..cmd.size];
  }

  lemma InstallKeeps(p: Platform, d: Device, i: nat)
    requires Inv(p, d) && InstallStep(d, i).Some?
    ensures Inv(p, InstallStep(d, i).value)
  {
    var r := d.ram.value;
    var cmd := r.updates[0].cmd;
    RecordFollows(r, RunStatus(cmd, Installing, -1), InstallStep(d, i).value.ram.value);
  }

  lemma StoreMarkerKeeps(p: Platform, d: Device, i: nat, ok: bool)
    requires Inv(p, d) && StoreMarkerStep(d, i, ok).Some?
    ensures Inv(p, StoreMarkerStep(d, i, ok).value)
  {
    var r := d.ram.value;
    var cmd := r.updates[0].cmd;
    if !ok {
      RecordFollows(r, Status(cmd.requestId, cmd.version, Failed, FlashError, -1), StoreMarkerStep(d, i, ok).value.ram.value);
    }
  }

  lemma SetBootKeeps(p: Platform, d: Device, i: nat, erased: bool)
    requires Inv(p, d) && SetBootStep(p, d, i, true, erased).Some?
    ensures Inv(p, SetBootStep(p, d, i, true, erased).value)
  {
  }

  lemma SetBootRefusedKeeps(p: Platform, d: Device, i: nat, erased: bool)
    requires Inv(p, d) && SetBootStep(p, d, i, false, erased).Some?
    ensures Inv(p, SetBootStep(p, d, i, false, erased).value)
  {
    var r := d.ram.value;
    var cmd := r.updates[0].cmd;
    RecordFollows(r, Status(cmd.requestId, cmd.version, Failed, FlashError, -1), SetBootStep(p, d, i, false, erased).value.ram.value);
  }

  lemma ReportRebootingKeeps(p: Platform, d: Device, i: nat)
    requires Inv(p, d) && ReportRebootingStep(d, i).Some?
    ensures Inv(p, ReportRebootingStep(d, i).value)
  {
    var r := d.ram.value;
    var cmd := r.updates[0].cmd;
    RecordFollows(r, RunStatus(cmd, Rebooting, -1), ReportRebootingStep(d, i).value.ram.value);
  }

  lemma MarkValidKeeps(p: Platform, d: Device)
    requires Inv(p, d) && MarkValidStep(d, true).Some?
    ensures Inv(p, MarkValidStep(d, true).value)
  {
  }

  lemma ClearPendingKeeps(p: Platform, d: Device)
    requires Inv(p, d) && ClearPendingStep(d).Some?
    ensures Inv(p, ClearPendingStep(d).value)
  {
  }

  lemma FinalReadyKeeps(p: Platform, d: Device)
    requires Inv(p, d) && FinalReadyStep(d).Some?
    ensures Inv(p, FinalReadyStep(d).value)
  {
  }

  lemma RollBackKeeps(p: Platform, d: Device, ok: bool)
    requires Inv(p, d) && RollBackStep(p, d, ok).Some?
    ensures Inv(p, RollBackStep(p, d, ok).value)
  {
  }

  lemma EnterKeeps(p: Platform, d: Device, who: Task)
    requires Inv(p, d) && EnterStep(d, who).Some?
    ensures Inv(p, EnterStep(d, who).value)
  {
  }

  lemma PublishKeeps(p: Platform, d: Device, who: Task, ok: bool)
    requires Inv(p, d) && PublishStep(d, who, ok).Some?
    ensures Inv(p, PublishStep(d, who, ok).value)
  {
  }

  lemma LeaveKeeps(p: Platform, d: Device, who: Task)
    requires Inv(p, d) && LeaveStep(d, who).Some?
    ensures Inv(p, LeaveStep(d, who).value)
  {
  }

  lemma EraseKeeps(p: Platform, d: Device, who: Task, erased: bool)
    requires Inv(p, d) && EraseStep(d, who, erased).Some?
    ensures Inv(p, EraseStep(d, who, erased).value)
  {
  }

  lemma ChooseKeeps(p: Platform, d: Device, id: RequestId)
    requires Inv(p, d) && ChooseStep(p, d, id, false).Some?
    ensures Inv(p, ChooseStep(p, d, id, false).value)
  {
    NoActiveMeansNoUpdate(d.ram.value);
  }

  lemma StoreSwitchKeeps(p: Platform, d: Device, ok: bool)
    requires Inv(p, d) && StoreSwitchStep(d, ok).Some?
    ensures Inv(p, StoreSwitchStep(d, ok).value)
  {
  }

  lemma SetBootSwitchKeeps(p: Platform, d: Device, ok: bool, erased: bool)
    requires Inv(p, d) && SetBootSwitchStep(p, d, ok, erased).Some?
    ensures Inv(p, SetBootSwitchStep(p, d, ok, erased).value)
  {
  }

  predicate OfADownload(e: Event) {
    || e.StartTask? || e.DownloadFails? || e.BeginFlash? || e.WriteChunk? || e.ReportProgress? || e.EndOfData?
    || e.CheckImage?
  }

  predicate OfAnInstall(e: Event) {
    e.Install? || e.StoreMarker? || e.SetBoot? || e.ReportRebooting? || e.Restart?
  }

  lemma DownloadStepKeeps(p: Platform, d: Device, e: Event)
    requires Inv(p, d) && Next(p, d, e).Some? && OfADownload(e)
    ensures Inv(p, Next(p, d, e).value)
  {
    match e {
      case StartTask(i, ok) => StartKeeps(p, d, i, ok);
      case DownloadFails(i, error) => DownloadFailsKeeps(p, d, i, error);
      case BeginFlash(i) => BeginFlashKeeps(p, d, i);
      case WriteChunk(i, chunk, rest) => WriteKeeps(p, d, i, chunk, rest);
      case ReportProgress(i, percent) => ProgressKeeps(p, d, i, percent);
      case EndOfData(i) => EndOfDataKeeps(p, d, i);
      case CheckImage(i) => CheckKeeps(p, d, i);
    }
  }

  lemma InstallStepKeeps(p: Platform, d: Device, e: Event)
    requires Inv(p, d) && Next(p, d, e).Some? && OfAnInstall(e)
    ensures Inv(p, Next(p, d, e).value)
  {
    match e {
      case Install(i) => InstallKeeps(p, d, i);
      case StoreMarker(i, ok) => StoreMarkerKeeps(p, d, i, ok);
      case SetBoot(i, ok, erased) =>
        if ok {
          SetBootKeeps(p, d, i, erased);
        } else {
          SetBootRefusedKeeps(p, d, i, erased);
        }
      case ReportRebooting(i) => ReportRebootingKeeps(p, d, i);
      case Restart(_) =>
    }
  }

  lemma StepKeeps(p: Platform, d: Device, e: Event)
    requires Inv(p, d) && Next(p, d, e).Some? && Regular(e)
    ensures Inv(p, Next(p, d, e).value)
  {
    if OfADownload(e) {
      DownloadStepKeeps(p, d, e);
    } else if OfAnInstall(e) {
      InstallStepKeeps(p, d, e);
    } else {
      OtherStepKeeps(p, d, e);
    }
  }

  lemma OtherStepKeeps(p: Platform, d: Device, e: Event)
    requires Inv(p, d) && Next(p, d, e).Some? && Regular(e) && !OfADownload(e) && !OfAnInstall(e)
    ensures Inv(p, Next(p, d, e).value)
  {
    match e {
      case PowerLoss =>
      case Boot(_) =>
        BootloaderKeeps(p, d);
        InitKeeps(p, Bootloader(d));
      case OnCommand(cmd, valid, flags) => CommandKeeps(p, d, cmd, valid, flags);
      case MarkAppValid(_) => MarkValidKeeps(p, d);
      case ClearPending => ClearPendingKeeps(p, d);
      case FinalReady => FinalReadyKeeps(p, d);
      case RollBackNow(ok) => RollBackKeeps(p, d, ok);
      case EnterPublish(who) => EnterKeeps(p, d, who);
      case PublishFinal(who, ok) => PublishKeeps(p, d, who, ok);
      case LeavePublish(who) => LeaveKeeps(p, d, who);
      case EraseReported(who, erased) => EraseKeeps(p, d, who, erased);
      case ChooseSwitch(id, _) => ChooseKeeps(p, d, id);
      case StoreSwitch(ok) => StoreSwitchKeeps(p, d, ok);
      case SetBootSwitch(ok, erased) => SetBootSwitchKeeps(p, d, ok, erased);
      case RestartSwitch =>
    }
  }

  // ---------------------------------------------------------------- what most steps leave alone

  /** The slots of `d` hold the same bytes in `d'`, vouched for by the same. */
  predicate SameBytes(d: Device, d': Device) {
    && |d.slots| == |d'.slots| == 2
    && d'.slots[0].flash == d.slots[0].flash && d'.slots[0].vouch == d.slots[0].vouch
    && d'.slots[1].flash == d.slots[1].flash && d'.slots[1].vouch == d.slots[1].vouch
  }

  lemma DownloadLeavesBytes(p: Platform, d: Device, e: Event)
    requires TwoSlots(d) && Next(p, d, e).Some? && OfADownload(e) && !e.WriteChunk? && !e.CheckImage?
    ensures SameBytes(d, Next(p, d, e).value)
  {
  }

  lemma InstallLeavesBytes(p: Platform, d: Device, e: Event)
    requires TwoSlots(d) && Next(p, d, e).Some? && OfAnInstall(e)
    ensures SameBytes(d, Next(p, d, e).value)
  {
  }

  lemma OtherLeavesBytes(p: Platform, d: Device, e: Event)
    requires TwoSlots(d) && Next(p, d, e).Some? && !OfADownload(e) && !OfAnInstall(e)
    ensures SameBytes(d, Next(p, d, e).value)
  {
  }

  /** Only a chunk changes the bytes of a slot, and only a check what vouches for them. */
  lemma BytesStay(p: Platform, d: Device, e: Event)
    requires TwoSlots(d) && Next(p, d, e).Some? && !e.WriteChunk? && !e.CheckImage?
    ensures SameBytes(d, Next(p, d, e).value)
  {
    if OfADownload(e) {
      DownloadLeavesBytes(p, d, e);
    } else if OfAnInstall(e) {
      InstallLeavesBytes(p, d, e);
    } else {
      OtherLeavesBytes(p, d, e);
    }
  }

  lemma VouchStays(p: Platform, d: Device, e: Event, s: int)
    requires TwoSlots(d) && Next(p, d, e).Some? && !e.CheckImage? && s in {0, 1}
    ensures TwoSlots(Next(p, d, e).value) && Next(p, d, e).value.slots[s].vouch == d.slots[s].vouch
  {
    if e.WriteChunk? {
      assert Next(p, d, e) == WriteStep(d, e.i, e.chunk, e.rest);
    } else {
      BytesStay(p, d, e);
      TwoSlotsStay(p, d, e);
    }
  }

  lemma TwoSlotsStay(p: Platform, d: Device, e: Event)
    requires TwoSlots(d) && Next(p, d, e).Some?
    ensures TwoSlots(Next(p, d, e).value)
  {
  }

  /** Every update under way is one of `cmds`. */
  predicate UpdatesOf(d: Device, cmds: set<Command>) {
    d.ram.Some? ==> forall i :: 0 <= i < |d.ram.value.updates| ==> d.ram.value.updates[i].cmd in cmds
  }

  lemma DownloadUpdates(p: Platform, d: Device, e: Event, cmds: set<Command>)
    requires UpdatesOf(d, cmds) && Next(p, d, e).Some? && OfADownload(e)
    ensures UpdatesOf(Next(p, d, e).value, cmds)
  {
  }

  lemma InstallUpdates(p: Platform, d: Device, e: Event, cmds: set<Command>)
    requires UpdatesOf(d, cmds) && Next(p, d, e).Some? && OfAnInstall(e)
    ensures UpdatesOf(Next(p, d, e).value, cmds)
  {
  }

  lemma OtherUpdates(p: Platform, d: Device, e: Event, cmds: set<Command>)
    requires UpdatesOf(d, cmds) && Next(p, d, e).Some? && !OfADownload(e) && !OfAnInstall(e) && !e.OnCommand?
    ensures UpdatesOf(Next(p, d, e).value, cmds)
  {
  }

  lemma UpdatesStay(p: Platform, d: Device, e: Event, cmds: set<Command>)
    requires UpdatesOf(d, cmds) && Next(p, d, e).Some? && !e.OnCommand?
    ensures UpdatesOf(Next(p, d, e).value, cmds)
  {
    if OfADownload(e) {
      DownloadUpdates(p, d, e, cmds);
    } else if OfAnInstall(e) {
      InstallUpdates(p, d, e, cmds);
    } else {
      OtherUpdates(p, d, e, cmds);
    }
  }

  lemma CommandUpdates(d: Device, cmd: Command, valid: bool, flags: Flags, cmds: set<Command>)
    requires UpdatesOf(d, cmds) && CommandStep(d, cmd, valid, flags).Some?
    ensures UpdatesOf(CommandStep(d, cmd, valid, flags).value, cmds + if valid then {cmd} else {})
  {
  }

  /** A device as it leaves the cable: one complete image that boots, no marker, and it is off. */
  predicate Fresh(p: Platform, d: Device) {
    && TwoSlots(d) && d.ram.None? && d.marker.None?
    && p.imageOk(d.slots[d.boot].flash) && d.slots[d.boot].img in {Valid, Undefined}
    && d.slots[0].vouch == AtStart(d.slots[0].flash) && d.slots[1].vouch == AtStart(d.slots[1].flash)
  }

  lemma {:induction false} RunKeeps(p: Platform, d: Device, es: seq<Event>)
    requires Inv(p, d) && Run(p, d, es).Some? && AllRegular(es)
    ensures Inv(p, Run(p, d, es).value)
    decreases |es|
  {
    if es != [] {
      StepKeeps(p, d, es[0]);
      RunKeeps(p, Next(p, d, es[0]).value, es[1..]);
    }
  }
}
