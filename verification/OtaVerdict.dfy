/** What a boot says of the update before it, on any device at all (ota_manager_init). */
module OtaVerdict {
  import opened OtaTypes
  import opened OtaBoot
  import opened OtaDevice

  /** The slot the bootloader runs: a new image gets one boot, and is given up if that boot did not validate it. */
  predicate Chosen(off: Device, b: Device) {
    && TwoSlots(off) && Alive(b) && b.boot == b.ram.value.running
    && var tried := off.slots[off.boot];
    && (if tried.img == PendingVerify
        then b.boot == Other(off.boot) && b.slots == off.slots[off.boot := tried.(img := Invalid)]
        else && b.boot == off.boot
             && b.slots == off.slots[off.boot := tried.(img := if tried.img == New then PendingVerify else tried.img)])
  }

  /** The image that runs is on trial: it still has to be marked valid. */
  predicate RunsOnTrial(b: Device)
    requires Alive(b)
  {
    b.slots[b.ram.value.running].img in {New, PendingVerify}
  }

  /** A final status is there, pending and in the record, exactly when the update ended; and it tells how. */
  predicate Reports(off: Device, b: Device) {
    && Alive(b)
    && var r := b.ram.value;
    if Ended(off.marker, r.version, r.running) then
      && r.report.final.Some? && TellsTheEnd(off.marker.value, r.version, r.running, r.report.final.value)
      && r.report.pending && (r.report.ready <==> !RunsOnTrial(b))
      && r.tracker == [r.report.final.value] && b.marker == off.marker
    else
      && r.report.final.None? && !r.report.pending && !r.report.ready
      && r.tracker == [] && b.marker.None?
  }

  /** Nothing is under way but the validation of an image on trial. */
  predicate StartsQuiet(b: Device, taskCreated: bool) {
    && Alive(b)
    && var r := b.ram.value;
    && (r.validationPending <==> RunsOnTrial(b) && taskCreated) && (r.validation.Waiting? <==> r.validationPending)
    && (r.validation.NotNeeded? <==> !r.validationPending)
    && r.updates == [] && !r.switchPending && r.web.NoSwitch?
    && !r.report.sending && r.report.mqtt.Outside? && r.report.validator.Outside? && r.report.published == 0
  }

  lemma BootloaderChooses(off: Device)
    requires TwoSlots(off)
    ensures var b := Bootloader(off);
            && TwoSlots(b) && b == off.(slots := b.slots, boot := b.boot)
            && var tried := off.slots[off.boot];
            && (tried.img == PendingVerify ==>
                  b.boot == Other(off.boot) && b.slots == off.slots[off.boot := tried.(img := Invalid)])
            && (tried.img == New ==> b.boot == off.boot && b.slots == off.slots[off.boot := tried.(img := PendingVerify)])
            && (tried.img !in {New, PendingVerify} ==> b == off)
  {
  }

  lemma InitSays(p: Platform, d: Device, b: Device, taskCreated: bool)
    requires TwoSlots(d) && d.ram.None? && b == Init(p, d, taskCreated)
    ensures Reports(d, b) && StartsQuiet(b, taskCreated)
    ensures b.slots == d.slots && b.boot == d.boot && b.ram.value.running == d.boot && b.promise == d.promise
    ensures var version := p.versionOf(d.slots[d.boot].flash);
            b.ram.value.version == if version == "" then "unknown" else version
  {
  }

  /**
   On every device that is off, whatever NVS and the slots hold: the boot reports the update of the marker
   exactly when its slot runs or the version before it runs again, and a stale marker is dropped without a word.
   */
  lemma BootSaysExactly(p: Platform, off: Device, taskCreated: bool)
    requires TwoSlots(off) && off.ram.None?
    ensures BootStep(p, off, taskCreated).Some?
    ensures var b := BootStep(p, off, taskCreated).value;
            && Chosen(off, b) && Reports(off, b) && StartsQuiet(b, taskCreated) && b.promise == off.promise
            && var version := p.versionOf(b.slots[b.boot].flash);
            b.ram.value.version == if version == "" then "unknown" else version
  {
    BootloaderChooses(off);
    InitSays(p, Bootloader(off), BootStep(p, off, taskCreated).value, taskCreated);
  }
}
