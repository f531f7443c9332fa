/**
 The variables of ota_manager.c and its critical sections, each proved to be the step of OtaDevice
 that the guarantees are about.
 */
module OtaManager {
  import opened Wrappers
  import opened OtaTypes
  import opened OtaTracker
  import opened OtaDecide
  import opened OtaBoot
  import opened OtaDevice

  /** `d` is what the boot of the device `b`, which the bootloader left, makes of the running slot. */
  predicate Booted(b: Device, version: Version, taskCreated: bool, d: Device)
    requires TwoSlots(b)
  {
    var img := b.slots[b.boot].img;
    && Alive(d) && d.boot == b.boot && d.ram == Some(InitialRam(b.boot, version, img, b.marker, taskCreated))
    && d.marker == if BootDecide(b.marker, Some(version), b.boot, img).clearMarker then None else b.marker
  }

  lemma BootStepBoots(p: Platform, off: Device, taskCreated: bool)
    requires TwoSlots(off) && off.ram.None?
    ensures var b := Bootloader(off);
            && TwoSlots(b) && b.marker == off.marker && BootStep(p, off, taskCreated).Some?
            && Booted(b, RunVersion(p, b.slots[b.boot].flash), taskCreated, BootStep(p, off, taskCreated).value)
  {
  }

  /** What a command that read the flags as `busy` sees of them. */
  function SeenAs(busy: bool, r: Ram): Flags {
    if busy == (r.validationPending || r.switchPending) then AsTheyAre else if busy then StillSet else NotYetSet
  }

  /** The variables of the manager and those of the device around it are the same in `d` and `d'`. */
  predicate SameVariables(d: Device, d': Device) {
    && Alive(d) && Alive(d') && d'.marker == d.marker && d'.boot == d.boot
    && var r, r' := d.ram.value, d'.ram.value;
    && r'.running == r.running && r'.version == r.version && r'.tracker == r.tracker
    && r'.validationPending == r.validationPending && r'.switchPending == r.switchPending
    && r'.report.final == r.report.final && r'.report.pending == r.report.pending
    && r'.report.ready == r.report.ready && r'.report.sending == r.report.sending
  }

  lemma FlashLeavesVariables(p: Platform, d: Device, e: Event)
    requires Alive(d) && Next(p, d, e).Some? && (e.StartTask? ==> e.ok)
    requires e.StartTask? || e.WriteChunk? || e.CheckImage?
    ensures SameVariables(d, Next(p, d, e).value)
  {
  }

  lemma ReportLeavesVariables(p: Platform, d: Device, e: Event)
    requires Alive(d) && Next(p, d, e).Some? && (e.RollBackNow? ==> !e.ok)
    requires e.RollBackNow? || e.MarkAppValid? || e.PublishFinal?
    ensures SameVariables(d, Next(p, d, e).value)
  {
  }

  class Manager {
    const running: int
    const version: Version
    const tracker: Tracker
    var validationPending: bool
    var switchPending: bool
    var final: Status
    var finalPending: bool
    var finalReady: bool
    var finalSending: bool
    var marker: Option<Marker> // NVS
    var boot: int              // otadata
    ghost const platform: Platform
    ghost var device: Device   // the device these variables are part of

    /** The variables are those of `r`. */
    ghost predicate Mirrors(r: Ram)
      requires tracker.Valid()
      reads this, tracker, tracker.entries
    {
      && r.running == running && r.version == version
      && r.tracker == tracker.Contents()
      && r.validationPending == validationPending && r.switchPending == switchPending
      && r.report.pending == finalPending && r.report.ready == finalReady && r.report.sending == finalSending
      && (r.report.final.Some? ==> r.report.final.value == final)
    }

    ghost predicate Valid()
      reads this, tracker, tracker.entries
    {
      && tracker.Valid() && Alive(device)
      && device.marker == marker && device.boot == boot
      && Mirrors(device.ram.value)
    }

    /** What the boot has to say of the marker that NVS held: how its update ended, or nothing at all. */
    ghost predicate Announces(stored: Option<Marker>, onTrial: bool)
      requires tracker.Valid()
      reads this, tracker, tracker.entries
    {
      if Ended(stored, version, running) then
        && finalPending && TellsTheEnd(stored.value, version, running, final) && (finalReady <==> !onTrial)
        && tracker.Contents() == [final] && marker == stored
      else
        !finalPending && !finalReady && tracker.Contents() == [] && marker.None?
    }

    /** The variables before ota_manager_init, which start empty at every boot. */
    constructor (ghost platform: Platform, running: int, version: Version, stored: Option<Marker>)
      ensures this.platform == platform
      ensures tracker.Valid() && tracker.Contents() == [] && fresh(tracker) && fresh(tracker.entries)
      ensures !validationPending && !switchPending && !finalPending && !finalReady && !finalSending
      ensures this.running == running && this.version == version && boot == running && marker == stored
    {
      this.running, this.version, boot, marker := running, version, running, stored;
      this.platform := platform;
      tracker := new Tracker();
      final := Status("", "", OtaState.Accepted, NoError, 0);
      validationPending, switchPending, finalPending, finalReady, finalSending := false, false, false, false, false;
    }

    /** ota_manager_init: `img` is the state of the running slot. */
    method Init(img: ImgState, taskCreated: bool)
      requires tracker.Valid() && tracker.Contents() == []
      requires !validationPending && !switchPending && !finalPending && !finalReady && !finalSending
      modifies this`marker, this`final, this`finalPending, this`finalReady, this`validationPending
      modifies tracker`count, tracker.entries
      ensures tracker.Valid() && Mirrors(InitialRam(running, version, img, old(marker), taskCreated))
      ensures marker == if BootDecide(old(marker), Some(version), running, img).clearMarker then None else old(marker)
      ensures Announces(old(marker), img in {New, PendingVerify})
      ensures validationPending <==> img in {New, PendingVerify} && taskCreated
    {
      var loaded := marker;
      var plan := BootDecide(loaded, Some(version), running, img);
      if loaded.Some? && plan.clearMarker {
        marker := None;
      }
      if loaded.Some? && plan.report {
        finalPending := true;
        finalReady := !plan.validate;
        final := Status(loaded.value.requestId, loaded.value.targetVersion, plan.state, plan.error, -1);
        tracker.Update(final.requestId, final.targetVersion, final.state, final.error, final.progress);
      }
      if plan.validate {
        validationPending := true;
        if !taskCreated {
          validationPending := false;
        }
      }
    }

    /**
     A boot of the device `off`: the bootloader chose `running`, `described` is the version in its app
     descriptor, `img` its state and `stored` what NVS holds. The variables that ota_manager_init leaves
     are those of the boot step of the device.
     */
    static method Boot(ghost platform: Platform, ghost off: Device, running: int, described: Version, img: ImgState,
                       stored: Option<Marker>, taskCreated: bool)
      returns (m: Manager)
      requires TwoSlots(off) && off.ram.None? && stored == off.marker
      requires running == Bootloader(off).boot && img == Bootloader(off).slots[running].img
      requires described == platform.versionOf(Bootloader(off).slots[running].flash)
      ensures fresh(m) && fresh(m.tracker) && fresh(m.tracker.entries) && m.platform == platform
      ensures m.Valid() && Some(m.device) == BootStep(platform, off, taskCreated)
      ensures m.running == running && m.version == (if described == "" then "unknown" else described)
      ensures m.Announces(stored, img in {New, PendingVerify})
      ensures m.validationPending <==> img in {New, PendingVerify} && taskCreated
    {
      m := new Manager(platform, running, if described == "" then "unknown" else described, stored);
      m.Init(img, taskCreated);
      BootStepBoots(platform, off, taskCreated);
      m.device := BootStep(platform, off, taskCreated).value;
    }

    /** What ota_manager_handle_command reads before it takes the lock. */
    method ReadsFlags() returns (busy: bool)
      requires Valid()
      ensures SeenAs(busy, device.ram.value) == AsTheyAre
    {
      busy := validationPending || switchPending;
    }

    /**
     The locked section of ota_manager_handle_command: `busy` is what the flags were when they were read, which
     they need not be any more; `started` says whether an update was accepted.
     */
    method HandleCommand(cmd: Command, valid: bool, busy: bool) returns (answer: Status, started: bool)
      requires Valid()
      modifies this`device, tracker`count, tracker.entries
      ensures Valid() && Some(device) == CommandStep(old(device), cmd, valid, SeenAs(busy, old(device).ram.value))
      ensures Handled(tracker.Contents(), answer, started)
              == Handle(old(tracker.Contents()), cmd, valid, Env(Some(version), busy, OTA_SLOT_SIZE))
    {
      answer, started := AnswerCommand(tracker, cmd, valid, Env(Some(version), busy, OTA_SLOT_SIZE));
      device := CommandStep(device, cmd, valid, SeenAs(busy, device.ram.value)).value;
    }

    /** The steps that touch none of these variables: flash, the state of an image, a publish on its way. */
    ghost method Elsewhere(e: Event)
      requires Valid() && Next(platform, device, e).Some?
      requires match e
               case StartTask(_, ok) => ok
               case RollBackNow(ok) => !ok
               case _ => e.WriteChunk? || e.CheckImage? || e.MarkAppValid? || e.PublishFinal?
      modifies this`device
      ensures Valid() && Some(device) == Next(platform, old(device), e)
    {
      if e.StartTask? || e.WriteChunk? || e.CheckImage? {
        FlashLeavesVariables(platform, device, e);
      } else {
        ReportLeavesVariables(platform, device, e);
      }
      device := Next(platform, device, e).value;
    }

    // -------------------------------------------------------------- the update task

    /** transition() and fail(): the next state of the update `i` goes to the record. */
    method Report(cmd: Command, state: OtaState, error: OtaError, progress: int, ghost after: Device)
      requires Valid() && Alive(after) && after.marker == marker && after.boot == boot
      requires var r := device.ram.value;
               var st := Status(cmd.requestId, cmd.version, state, error, progress);
               after.ram == Some(r.(tracker := Updated(r.tracker, st), updates := after.ram.value.updates))
      modifies this`device, tracker`count, tracker.entries
      ensures Valid() && device == after
      ensures tracker.Contents() == Updated(old(tracker.Contents()), Status(cmd.requestId, cmd.version, state, error, progress))
    {
      tracker.Update(cmd.requestId, cmd.version, state, error, progress);
      device := after;
    }

    method TaskNotStarted(ghost i: nat, cmd: Command)
      requires Valid() && StartStep(device, i, false).Some? && device.ram.value.updates[i].cmd == cmd
      modifies this`device, tracker`count, tracker.entries
      ensures Valid() && Some(device) == StartStep(old(device), i, false)
      ensures tracker.Contents() == Updated(old(tracker.Contents()), Status(cmd.requestId, cmd.version, Failed, NoMemory, -1))
    {
      Report(cmd, Failed, NoMemory, -1, StartStep(device, i, false).value);
    }

    method DownloadFailed(ghost i: nat, cmd: Command, error: OtaError)
      requires Valid() && DownloadFailsStep(device, i, error).Some? && device.ram.value.updates[i].cmd == cmd
      modifies this`device, tracker`count, tracker.entries
      ensures Valid() && Some(device) == DownloadFailsStep(old(device), i, error)
      ensures tracker.Contents() == Updated(old(tracker.Contents()), Status(cmd.requestId, cmd.version, Failed, error, -1))
    {
      Report(cmd, Failed, error, -1, DownloadFailsStep(device, i, error).value);
    }

    method DownloadBegins(ghost i: nat, cmd: Command)
      requires Valid() && BeginFlashStep(device, i).Some? && device.ram.value.updates[i].cmd == cmd
      modifies this`device, tracker`count, tracker.entries
      ensures Valid() && Some(device) == BeginFlashStep(old(device), i)
      ensures tracker.Contents() == Updated(old(tracker.Contents()), Status(cmd.requestId, cmd.version, Downloading, NoError, 0))
    {
      Report(cmd, Downloading, NoError, 0, BeginFlashStep(device, i).value);
    }

    method DownloadProgresses(ghost i: nat, cmd: Command, percent: nat)
      requires Valid() && ProgressStep(device, i, percent).Some? && device.ram.value.updates[i].cmd == cmd
      modifies this`device, tracker`count, tracker.entries
      ensures Valid() && Some(device) == ProgressStep(old(device), i, percent)
      ensures tracker.Contents() == Updated(old(tracker.Contents()), Status(cmd.requestId, cmd.version, Downloading, NoError, percent))
    {
      Report(cmd, Downloading, NoError, percent, ProgressStep(device, i, percent).value);
    }

    method DownloadEnds(ghost i: nat, cmd: Command)
      requires Valid() && EndOfDataStep(device, i).Some? && device.ram.value.updates[i].cmd == cmd
      modifies this`device, tracker`count, tracker.entries
      ensures Valid() && Some(device) == EndOfDataStep(old(device), i)
      ensures tracker.Contents() == Updated(old(tracker.Contents()), Status(cmd.requestId, cmd.version, Verifying, NoError, -1))
    {
      Report(cmd, Verifying, NoError, -1, EndOfDataStep(device, i).value);
    }

    method Installs(ghost i: nat, cmd: Command)
      requires Valid() && InstallStep(device, i).Some? && device.ram.value.updates[i].cmd == cmd
      modifies this`device, tracker`count, tracker.entries
      ensures Valid() && Some(device) == InstallStep(old(device), i)
      ensures tracker.Contents() == Updated(old(tracker.Contents()), Status(cmd.requestId, cmd.version, Installing, NoError, -1))
    {
      Report(cmd, Installing, NoError, -1, InstallStep(device, i).value);
    }

    method Reboots(ghost i: nat, cmd: Command)
      requires Valid() && ReportRebootingStep(device, i).Some? && device.ram.value.updates[i].cmd == cmd
      modifies this`device, tracker`count, tracker.entries
      ensures Valid() && Some(device) == ReportRebootingStep(old(device), i)
      ensures tracker.Contents() == Updated(old(tracker.Contents()), Status(cmd.requestId, cmd.version, Rebooting, NoError, -1))
    {
      Report(cmd, Rebooting, NoError, -1, ReportRebootingStep(device, i).value);
    }

    /** `stored` is what marker_store answered. */
    method StoresMarker(ghost i: nat, cmd: Command, slot: int, stored: bool)
      requires Valid() && StoreMarkerStep(device, i, stored).Some?
      requires device.ram.value.updates[i].cmd == cmd && slot == Other(running)
      modifies this`device, this`marker, tracker`count, tracker.entries
      ensures Valid() && Some(device) == StoreMarkerStep(old(device), i, stored)
      ensures marker == if stored then Some(Marker(cmd.requestId, cmd.version, version, slot)) else old(marker)
      ensures tracker.Contents() ==
              if stored then old(tracker.Contents())
              else Updated(old(tracker.Contents()), Status(cmd.requestId, cmd.version, Failed, FlashError, -1))
    {
      if stored {
        marker := Some(Marker(cmd.requestId, cmd.version, version, slot));
        device := StoreMarkerStep(device, i, stored).value;
      } else {
        Report(cmd, Failed, FlashError, -1, StoreMarkerStep(device, i, stored).value);
      }
    }

    /** `switched` and `erased` are what esp_ota_set_boot_partition and the erase of the key answered. */
    method SetsBoot(ghost i: nat, cmd: Command, slot: int, switched: bool, erased: bool)
      requires Valid() && SetBootStep(platform, device, i, switched, erased).Some?
      requires device.ram.value.updates[i].cmd == cmd && slot == Other(running)
      modifies this`device, this`marker, this`boot, tracker`count, tracker.entries
      ensures Valid() && Some(device) == SetBootStep(platform, old(device), i, switched, erased)
      ensures boot == if switched then slot else old(boot)
      ensures marker == if !switched && erased then None else old(marker)
      ensures tracker.Contents() ==
              if switched then old(tracker.Contents())
              else Updated(old(tracker.Contents()), Status(cmd.requestId, cmd.version, Failed, FlashError, -1))
    {
      if switched {
        boot := slot;
        device := SetBootStep(platform, device, i, switched, erased).value;
      } else {
        if erased {
          marker := None;
        }
        device := device.(marker := marker);
        Report(cmd, Failed, FlashError, -1, SetBootStep(platform, old(device), i, switched, erased).value);
      }
    }

    // -------------------------------------------------------------- validation and the final report

    method ClearsPending()
      requires Valid() && ClearPendingStep(device).Some?
      modifies this`device, this`validationPending
      ensures Valid() && Some(device) == ClearPendingStep(old(device)) && !validationPending
    {
      validationPending := false;
      device := ClearPendingStep(device).value;
    }

    method SetsReady()
      requires Valid() && FinalReadyStep(device).Some?
      modifies this`device, this`finalReady
      ensures Valid() && Some(device) == FinalReadyStep(old(device)) && finalReady
    {
      finalReady := true;
      device := FinalReadyStep(device).value;
    }

    /** The first section of try_publish_final: `go` when this task is the one to publish. */
    method BeginsPublish(ghost who: Task) returns (go: bool, copy: Status)
      requires Valid() && EnterStep(device, who).Some?
      modifies this`device, this`finalSending
      ensures Valid() && Some(device) == EnterStep(old(device), who)
      ensures go <==> PublisherOf(device.ram.value.report, who).Sending?
      ensures copy == final && (go <==> finalPending && finalReady && !old(finalSending))
      ensures finalSending <==> go || old(finalSending)
    {
      go := finalPending && finalReady && !finalSending;
      copy := final;
      if go {
        finalSending := true;
      }
      device := EnterStep(device, who).value;
    }

    /** The second section, after the publish of the copy; `sent` is what it answered. */
    method EndsPublish(ghost who: Task, sent: bool)
      requires Valid() && LeaveStep(device, who).Some? && PublisherOf(device.ram.value.report, who) == Sent(sent)
      modifies this`device, this`finalSending, this`finalPending
      ensures Valid() && Some(device) == LeaveStep(old(device), who)
      ensures !finalSending && (finalPending <==> old(finalPending) && !sent)
    {
      finalSending := false;
      if sent {
        finalPending := false;
      }
      device := LeaveStep(device, who).value;
    }

    method ErasesReported(ghost who: Task, erased: bool)
      requires Valid() && EraseStep(device, who, erased).Some?
      modifies this`device, this`marker
      ensures Valid() && Some(device) == EraseStep(old(device), who, erased)
      ensures marker == if erased then None else old(marker)
    {
      if erased {
        marker := None;
      }
      device := EraseStep(device, who, erased).value;
    }

    // -------------------------------------------------------------- the switch from the web page

    /** device_busy(). */
    method IsBusy() returns (busy: bool)
      requires Valid()
      ensures busy <==> DeviceBusy(device.ram.value)
      ensures busy <==>
                || validationPending || switchPending
                || exists k :: 0 <= k < |tracker.Contents()| && IsActive(tracker.Contents()[k].state)
    {
      var active := tracker.Active();
      ghost var t := device.ram.value.tracker;
      assert t == tracker.Contents();
      assert active.None? ==> forall k :: 0 <= k < |t| ==> !IsActive(t[k].state);
      assert active.Some? ==> exists k :: 0 <= k < |t| && t[k] == active.value;
      busy := active.Some? || validationPending || switchPending;
    }

    /**
     `asking` says that a question to the backend is under way, `readable` is the version read from the
     other slot, "" when there is none, and `img` its state.
     */
    method ChoosesSwitch(asking: bool, readable: Version, img: ImgState, slot: int, id: RequestId)
      returns (chosen: Option<Marker>)
      requires Valid() && device.ram.value.web.NoSwitch? && slot == Other(running)
      requires readable == platform.versionOf(device.slots[slot].flash) && img == device.slots[slot].img
      modifies this`device, this`switchPending
      ensures Valid() && tracker.Contents() == old(tracker.Contents())
      ensures chosen.Some? <==>
                && !asking && !old(validationPending) && !old(switchPending)
                && (forall k :: 0 <= k < |tracker.Contents()| ==> !IsActive(tracker.Contents()[k].state))
                && id != "" && readable != "" && readable != version && img in {ImgState.Valid, Undefined}
      ensures chosen.Some? ==> chosen.value == Marker(id, readable, version, slot)
      ensures switchPending <==> chosen.Some? || old(switchPending)
      ensures chosen.Some? <==> !asking && ChooseStep(platform, old(device), id, false).Some?
      ensures chosen.Some? ==>
                && Some(device) == ChooseStep(platform, old(device), id, false)
                && device.ram.value.web == Chosen(chosen.value)
      ensures chosen.None? ==> device == old(device)
    {
      var busy := IsBusy();
      if asking || busy {
        return None;
      }
      if readable == "" || img == Invalid || img == New || img == PendingVerify || readable == version || id == "" {
        return None;
      }
      switchPending := true;
      chosen := Some(Marker(id, readable, version, slot));
      device := ChooseStep(platform, device, id, false).value;
    }

    method StoresSwitch(chosen: Marker, stored: bool)
      requires Valid() && device.ram.value.web == Chosen(chosen)
      modifies this`device, this`switchPending, this`marker
      ensures Valid() && Some(device) == StoreSwitchStep(old(device), stored)
      ensures marker == (if stored then Some(chosen) else old(marker)) && (switchPending <==> stored && old(switchPending))
    {
      if stored {
        marker := Some(chosen);
      } else {
        switchPending := false;
      }
      device := StoreSwitchStep(device, stored).value;
    }

    method SetsBootSwitch(slot: int, switched: bool, erased: bool)
      requires Valid() && SetBootSwitchStep(platform, device, switched, erased).Some? && slot == Other(running)
      modifies this`device, this`switchPending, this`marker, this`boot
      ensures Valid() && Some(device) == SetBootSwitchStep(platform, old(device), switched, erased)
      ensures boot == if switched then slot else old(boot)
      ensures marker == if !switched && erased then None else old(marker)
      ensures switchPending <==> switched && old(switchPending)
    {
      if switched {
        boot := slot;
      } else {
        if erased {
          marker := None;
        }
        switchPending := false;
      }
      device := SetBootSwitchStep(platform, device, switched, erased).value;
    }
  }
}
