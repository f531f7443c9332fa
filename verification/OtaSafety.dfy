/** What the update protocol promises over whole runs of the device. */
module OtaSafety {
  import opened Wrappers
  import opened OtaTypes
  import opened OtaDevice
  import opened OtaInvariant

  lemma FreshIsSound(p: Platform, d: Device)
    requires Fresh(p, d)
    ensures Inv(p, d)
  {
  }

  // ---------------------------------------------------------------- the device always boots

  /** The slot the bootloader runs next. */
  function NextToRun(d: Device): int
    requires TwoSlots(d)
  {
    Bootloader(d).boot
  }

  /**
   However the tasks interleave and wherever power is lost, the slot the bootloader runs next holds
   a complete image.
   */
  lemma AlwaysBoots(p: Platform, d0: Device, es: seq<Event>)
    requires Fresh(p, d0) && AllRegular(es) && Run(p, d0, es).Some?
    ensures var d := Run(p, d0, es).value;
            TwoSlots(d) && p.imageOk(d.slots[d.boot].flash) && p.imageOk(d.slots[NextToRun(d)].flash)
  {
    FreshIsSound(p, d0);
    RunKeeps(p, d0, es);
  }

  // ---------------------------------------------------------------- the device boots only what was checked

  /** A complete image, and byte for byte the one that was last vouched for in this slot. */
  predicate Trusted(p: Platform, s: Slot) {
    p.imageOk(s.flash) && IsVouched(s)
  }

  predicate BootsTrusted(p: Platform, d: Device) {
    && TwoSlots(d) && Trusted(p, d.slots[d.boot])
    && (OnTrial(d) ==> Trusted(p, d.slots[Other(d.boot)]))
    && (d.ram.Some? ==> Trusted(p, d.slots[d.ram.value.running]))
  }

  /** The web page switches to a slot whose bytes are not the ones last vouched for. */
  predicate SwitchesToChanged(d: Device, e: Event) {
    e.SetBootSwitch? && e.ok && Alive(d) && !IsVouched(d.slots[Other(d.ram.value.running)])
  }

  predicate TouchesSlots(e: Event) {
    || e.Boot? || e.WriteChunk? || e.CheckImage? || e.SetBoot? || e.MarkAppValid?
    || e.RollBackNow? || e.SetBootSwitch?
  }

  lemma SlotsStay(p: Platform, d: Device, e: Event)
    requires Next(p, d, e).Some? && !TouchesSlots(e)
    ensures var d' := Next(p, d, e).value;
            && d'.slots == d.slots && d'.boot == d.boot
            && (d'.ram.Some? ==> d.ram.Some? && d'.ram.value.running == d.ram.value.running)
  {
  }

  lemma FlashStepKeepsTrust(p: Platform, d: Device, e: Event)
    requires Inv(p, d) && BootsTrusted(p, d) && Next(p, d, e).Some?
    requires e.WriteChunk? || e.CheckImage?
    ensures BootsTrusted(p, Next(p, d, e).value)
  {
    var r := d.ram.value;
    var d' := Next(p, d, e).value;
    assert !Trial(d) && d.boot == r.running;
    assert d'.slots[r.running] == d.slots[r.running];
  }

  lemma SetBootStepKeepsTrust(p: Platform, d: Device, i: nat, ok: bool, erased: bool)
    requires Inv(p, d) && BootsTrusted(p, d) && SetBootStep(p, d, i, ok, erased).Some?
    ensures BootsTrusted(p, SetBootStep(p, d, i, ok, erased).value)
  {
  }

  lemma SwitchStepKeepsTrust(p: Platform, d: Device, ok: bool, erased: bool)
    requires Inv(p, d) && BootsTrusted(p, d) && SetBootSwitchStep(p, d, ok, erased).Some?
    ensures BootsTrusted(p, SetBootSwitchStep(p, d, ok, erased).value) <==> !SwitchesToChanged(d, SetBootSwitch(ok, erased))
  {
  }

  lemma BootStepKeepsTrust(p: Platform, d: Device, e: Event)
    requires Inv(p, d) && BootsTrusted(p, d) && Next(p, d, e).Some? && Regular(e)
    requires e.Boot? || e.MarkAppValid? || e.RollBackNow?
    ensures BootsTrusted(p, Next(p, d, e).value)
  {
  }

  /**
   One kind of step lets the device boot something it has not checked: a switch from the web page to a
   slot whose bytes changed since they were last vouched for, when ESP-IDF takes them for a complete image.
   */
  lemma StepKeepsTrust(p: Platform, d: Device, e: Event)
    requires Inv(p, d) && BootsTrusted(p, d) && Next(p, d, e).Some? && Regular(e)
    ensures BootsTrusted(p, Next(p, d, e).value) <==> !SwitchesToChanged(d, e)
  {
    if !TouchesSlots(e) {
      SlotsStay(p, d, e);
    } else if e.SetBootSwitch? {
      SwitchStepKeepsTrust(p, d, e.ok, e.erased);
    } else if e.Boot? || e.MarkAppValid? || e.RollBackNow? {
      BootStepKeepsTrust(p, d, e);
    } else if e.SetBoot? {
      SetBootStepKeepsTrust(p, d, e.i, e.ok, e.erased);
    } else {
      FlashStepKeepsTrust(p, d, e);
    }
  }

  predicate NoChangedSwitch(p: Platform, d: Device, es: seq<Event>)
    decreases |es|
  {
    es == [] ||
    (&& !SwitchesToChanged(d, es[0])
     && (Next(p, d, es[0]).Some? ==> NoChangedSwitch(p, Next(p, d, es[0]).value, es[1..])))
  }

  predicate TrustedThroughout(p: Platform, d: Device, es: seq<Event>)
    decreases |es|
  {
    BootsTrusted(p, d) && (es != [] && Next(p, d, es[0]).Some? ==> TrustedThroughout(p, Next(p, d, es[0]).value, es[1..]))
  }

  /** At every moment of a run the device boots only bytes that were vouched for, exactly when no step is such a switch. */
  lemma {:induction false} TrustedExactlyWithoutChangedSwitch(p: Platform, d: Device, es: seq<Event>)
    requires Inv(p, d) && BootsTrusted(p, d) && Run(p, d, es).Some? && AllRegular(es)
    ensures TrustedThroughout(p, d, es) <==> NoChangedSwitch(p, d, es)
    decreases |es|
  {
    if es != [] {
      var d' := Next(p, d, es[0]).value;
      StepKeepsTrust(p, d, es[0]);
      StepKeeps(p, d, es[0]);
      if BootsTrusted(p, d') {
        TrustedExactlyWithoutChangedSwitch(p, d', es[1..]);
      }
    }
  }

  // ---------------------------------------------------------------- what a log of the events tells

  /** The slots into which a chunk was written since they last passed the checks, kept from the events alone. */
  function Logged(d: Device, e: Event, log: set<int>): set<int> {
    if !Alive(d) then log
    else if e.WriteChunk? then log + {Other(d.ram.value.running)}
    else if e.CheckImage? then log - {Other(d.ram.value.running)}
    else log
  }

  predicate LogHolds(d: Device, log: set<int>) {
    TwoSlots(d) && (0 !in log ==> IsVouched(d.slots[0])) && (1 !in log ==> IsVouched(d.slots[1]))
  }

  lemma LogKeeps(p: Platform, d: Device, e: Event, log: set<int>)
    requires LogHolds(d, log) && Next(p, d, e).Some?
    ensures LogHolds(Next(p, d, e).value, Logged(d, e, log))
  {
    match e {
      case WriteChunk(i, chunk, rest) => assert Next(p, d, e) == WriteStep(d, i, chunk, rest);
      case CheckImage(i) => assert Next(p, d, e) == CheckStep(p, d, i);
      case _ =>
        BytesStay(p, d, e);
        TwoSlotsStay(p, d, e);
    }
  }

  /** The web page switches to a slot into which a chunk was written since its last check. */
  predicate SwitchesToUnchecked(d: Device, e: Event, log: set<int>) {
    e.SetBootSwitch? && e.ok && Alive(d) && Other(d.ram.value.running) in log
  }

  predicate NoUncheckedSwitch(p: Platform, d: Device, es: seq<Event>, log: set<int>)
    decreases |es|
  {
    es == [] ||
      (&& !SwitchesToUnchecked(d, es[0], log)
       && (Next(p, d, es[0]).Some? ==> NoUncheckedSwitch(p, Next(p, d, es[0]).value, es[1..], Logged(d, es[0], log))))
  }

  /** Neither the slot that boots nor the one that runs nor the way back holds a chunk that was not checked. */
  predicate BootsChecked(d: Device, log: set<int>) {
    && TwoSlots(d) && d.boot !in log && (OnTrial(d) ==> Other(d.boot) !in log)
    && (d.ram.Some? ==> d.ram.value.running !in log)
  }

  /** An update that got past its check left nothing unchecked in its slot. */
  predicate InstallsChecked(d: Device, log: set<int>) {
    d.ram.Some? && |d.ram.value.updates| == 1 && d.ram.value.updates[0].stage in {Checked, ToMark, Marked} ==>
      Other(d.ram.value.running) !in log
  }

  predicate ChecksKept(d: Device, log: set<int>) {
    BootsChecked(d, log) && InstallsChecked(d, log)
  }

  lemma LoadKeepsChecked(p: Platform, d: Device, e: Event, log: set<int>)
    requires Inv(p, d) && ChecksKept(d, log) && Next(p, d, e).Some? && (e.WriteChunk? || e.CheckImage?)
    ensures ChecksKept(Next(p, d, e).value, Logged(d, e, log))
  {
  }

  lemma SetBootKeepsChecked(p: Platform, d: Device, i: nat, ok: bool, erased: bool, log: set<int>)
    requires Inv(p, d) && ChecksKept(d, log) && SetBootStep(p, d, i, ok, erased).Some?
    ensures ChecksKept(SetBootStep(p, d, i, ok, erased).value, log)
  {
  }

  lemma UpdateKeepsChecked(p: Platform, d: Device, e: Event, log: set<int>)
    requires Inv(p, d) && ChecksKept(d, log) && Next(p, d, e).Some?
    requires (OfADownload(e) || OfAnInstall(e)) && !TouchesSlots(e)
    ensures ChecksKept(Next(p, d, e).value, log)
  {
    SlotsStay(p, d, e);
    UpdateKeepsInstall(p, d, e, log);
  }

  lemma UpdateKeepsInstall(p: Platform, d: Device, e: Event, log: set<int>)
    requires InstallsChecked(d, log) && d.ram.Some? && |d.ram.value.updates| <= 1 && Next(p, d, e).Some?
    requires (OfADownload(e) || OfAnInstall(e)) && !TouchesSlots(e)
    ensures InstallsChecked(Next(p, d, e).value, log)
  {
  }

  lemma SwitchKeepsChecked(p: Platform, d: Device, ok: bool, erased: bool, log: set<int>)
    requires Inv(p, d) && ChecksKept(d, log)
    requires SetBootSwitchStep(p, d, ok, erased).Some?
    ensures BootsChecked(SetBootSwitchStep(p, d, ok, erased).value, log)
            <==> !SwitchesToUnchecked(d, SetBootSwitch(ok, erased), log)
    ensures InstallsChecked(SetBootSwitchStep(p, d, ok, erased).value, log)
  {
  }

  lemma CommandKeepsChecked(p: Platform, d: Device, cmd: Command, valid: bool, flags: Flags, log: set<int>)
    requires Inv(p, d) && ChecksKept(d, log) && CommandStep(d, cmd, valid, flags).Some?
    ensures ChecksKept(CommandStep(d, cmd, valid, flags).value, log)
  {
  }

  lemma OtherKeepsChecked(p: Platform, d: Device, e: Event, log: set<int>)
    requires Inv(p, d) && ChecksKept(d, log) && Next(p, d, e).Some? && Regular(e)
    requires !OfADownload(e) && !OfAnInstall(e) && !e.SetBootSwitch? && !e.OnCommand?
    ensures ChecksKept(Next(p, d, e).value, log)
  {
  }

  predicate ConcernsUpdate(e: Event) {
    OfADownload(e) || OfAnInstall(e)
  }

  lemma UpdateStepKeepsChecked(p: Platform, d: Device, e: Event, log: set<int>, d': Device)
    requires Inv(p, d) && ChecksKept(d, log) && Next(p, d, e) == Some(d') && ConcernsUpdate(e)
    ensures ChecksKept(d', Logged(d, e, log))
  {
    if e.WriteChunk? || e.CheckImage? {
      LoadKeepsChecked(p, d, e, log);
    } else if e.SetBoot? {
      SetBootKeepsChecked(p, d, e.i, e.ok, e.erased, log);
    } else {
      UpdateKeepsChecked(p, d, e, log);
    }
  }

  lemma OtherStepKeepsChecked(p: Platform, d: Device, e: Event, log: set<int>, d': Device)
    requires Inv(p, d) && ChecksKept(d, log) && Next(p, d, e) == Some(d') && Regular(e)
    requires !ConcernsUpdate(e) && !e.SetBootSwitch?
    ensures ChecksKept(d', log)
  {
    if e.OnCommand? {
      CommandKeepsChecked(p, d, e.cmd, e.valid, e.flags, log);
    } else {
      OtherKeepsChecked(p, d, e, log);
    }
  }

  /** As far as the log can tell, only such a switch lets an unchecked chunk boot. */
  lemma StepKeepsChecked(p: Platform, d: Device, e: Event, log: set<int>, d': Device)
    requires Inv(p, d) && ChecksKept(d, log) && Next(p, d, e) == Some(d') && Regular(e)
    ensures BootsChecked(d', Logged(d, e, log)) <==> !SwitchesToUnchecked(d, e, log)
    ensures InstallsChecked(d', Logged(d, e, log))
  {
    if e.SetBootSwitch? {
      SwitchKeepsChecked(p, d, e.ok, e.erased, log);
    } else if ConcernsUpdate(e) {
      UpdateStepKeepsChecked(p, d, e, log, d');
    } else {
      OtherStepKeepsChecked(p, d, e, log, d');
    }
  }

  ghost predicate CheckedThroughout(p: Platform, d: Device, es: seq<Event>, log: set<int>)
    decreases |es|
  {
    && BootsChecked(d, log)
    && (es != [] && Next(p, d, es[0]).Some? ==>
          CheckedThroughout(p, Next(p, d, es[0]).value, es[1..], Logged(d, es[0], log)))
  }

  /**
   Everything that boots, runs or is the way back was checked after its last chunk, at every moment of a
   run, exactly when the web page never switches to a slot with a chunk written since its last check.
   */
  lemma {:induction false} CheckedExactlyWithoutUncheckedSwitch(p: Platform, d: Device, es: seq<Event>, log: set<int>)
    requires Inv(p, d) && ChecksKept(d, log) && Run(p, d, es).Some? && AllRegular(es)
    ensures CheckedThroughout(p, d, es, log) <==> NoUncheckedSwitch(p, d, es, log)
    decreases |es|
  {
    if es != [] {
      var d', log' := Next(p, d, es[0]).value, Logged(d, es[0], log);
      StepKeepsChecked(p, d, es[0], log, d');
      StepKeeps(p, d, es[0]);
      if BootsChecked(d', log') {
        CheckedExactlyWithoutUncheckedSwitch(p, d', es[1..], log');
      }
    }
  }

  lemma {:induction false} UncheckedIsEnough(p: Platform, d: Device, es: seq<Event>, log: set<int>)
    requires LogHolds(d, log) && Run(p, d, es).Some? && NoUncheckedSwitch(p, d, es, log)
    ensures NoChangedSwitch(p, d, es)
    decreases |es|
  {
    if es != [] {
      LogKeeps(p, d, es[0], log);
      UncheckedIsEnough(p, Next(p, d, es[0]).value, es[1..], Logged(d, es[0], log));
    }
  }

  // ---------------------------------------------------------------- what it means to be vouched for

  /** The command of a valid ota/command. */
  function CommandOf(e: Event): set<Command> {
    if e.OnCommand? && e.valid then {e.cmd} else {}
  }

  /** A complete image that was there at the start, or one with the size and the SHA-256 of a command. */
  ghost predicate Genuine(p: Platform, d0: Device, cmds: set<Command>, s: int, flash: seq<byte>)
    requires TwoSlots(d0) && s in {0, 1}
  {
    && p.imageOk(flash)
    && (|| flash == d0.slots[s].flash
        || exists cmd :: cmd in cmds && 0 < cmd.size <= |flash| && p.sha256Hex(flash[..cmd.size]) == cmd.sha256)
  }

  /** Who vouches for the bytes of slot `s`: the start of the run, or a check for one of `cmds`. */
  ghost predicate VouchedBy(d0: Device, cmds: set<Command>, s: int, v: Vouch)
    requires TwoSlots(d0) && s in {0, 1}
  {
    match v
    case AtStart(bytes) => bytes == d0.slots[s].flash
    case Passed(_, size, sha256) => exists cmd :: cmd in cmds && 0 < cmd.size == size && cmd.sha256 == sha256
  }

  ghost predicate VouchesKnown(d0: Device, cmds: set<Command>, d: Device)
    requires TwoSlots(d0)
  {
    TwoSlots(d) && VouchedBy(d0, cmds, 0, d.slots[0].vouch) && VouchedBy(d0, cmds, 1, d.slots[1].vouch)
  }

  ghost predicate Known(d0: Device, cmds: set<Command>, d: Device)
    requires TwoSlots(d0)
  {
    VouchesKnown(d0, cmds, d) && UpdatesOf(d, cmds)
  }

  lemma VouchesStay(p: Platform, d0: Device, cmds: set<Command>, d: Device, e: Event)
    requires TwoSlots(d0) && VouchesKnown(d0, cmds, d) && Next(p, d, e).Some? && !e.CheckImage?
    ensures VouchesKnown(d0, cmds, Next(p, d, e).value)
  {
    VouchStays(p, d, e, 0);
    VouchStays(p, d, e, 1);
  }

  lemma CheckKnows(p: Platform, d0: Device, cmds: set<Command>, d: Device, i: nat)
    requires TwoSlots(d0) && Known(d0, cmds, d) && CheckStep(p, d, i).Some?
    ensures VouchesKnown(d0, cmds, CheckStep(p, d, i).value)
  {
    assert d.ram.value.updates[i].cmd in cmds;
  }

  lemma StepKnows(p: Platform, d0: Device, cmds: set<Command>, d: Device, e: Event)
    requires TwoSlots(d0) && Known(d0, cmds, d) && Next(p, d, e).Some?
    ensures Known(d0, cmds + CommandOf(e), Next(p, d, e).value)
  {
    if e.OnCommand? {
      CommandUpdates(d, e.cmd, e.valid, e.flags, cmds);
    } else {
      UpdatesStay(p, d, e, cmds);
    }
    if e.CheckImage? {
      CheckKnows(p, d0, cmds, d, e.i);
    } else {
      VouchesStay(p, d0, cmds, d, e);
    }
  }

  ghost predicate BootsGenuine(p: Platform, d0: Device, cmds: set<Command>, d: Device)
    requires TwoSlots(d0)
  {
    && TwoSlots(d) && Genuine(p, d0, cmds, d.boot, d.slots[d.boot].flash)
    && (OnTrial(d) ==> Genuine(p, d0, cmds, Other(d.boot), d.slots[Other(d.boot)].flash))
    && (d.ram.Some? ==> Genuine(p, d0, cmds, d.ram.value.running, d.slots[d.ram.value.running].flash))
  }

  lemma TrustedIsGenuine(p: Platform, d0: Device, cmds: set<Command>, d: Device, s: int)
    requires TwoSlots(d0) && VouchesKnown(d0, cmds, d) && s in {0, 1}
    requires Trusted(p, d.slots[s]) && Holds(p, d.slots[s].vouch)
    ensures Genuine(p, d0, cmds, s, d.slots[s].flash)
  {
  }

  lemma BootsTrustedIsGenuine(p: Platform, d0: Device, cmds: set<Command>, d: Device)
    requires TwoSlots(d0) && VouchesKnown(d0, cmds, d) && PromiseKept(p, d) && BootsTrusted(p, d)
    ensures BootsGenuine(p, d0, cmds, d)
  {
    TrustedIsGenuine(p, d0, cmds, d, d.boot);
    if OnTrial(d) {
      TrustedIsGenuine(p, d0, cmds, d, Other(d.boot));
    }
    if d.ram.Some? {
      TrustedIsGenuine(p, d0, cmds, d, d.ram.value.running);
    }
  }

  ghost predicate GenuineThroughout(p: Platform, d0: Device, cmds: set<Command>, d: Device, es: seq<Event>)
    requires TwoSlots(d0)
    decreases |es|
  {
    && BootsGenuine(p, d0, cmds, d)
    && (es != [] && Next(p, d, es[0]).Some? ==>
          GenuineThroughout(p, d0, cmds + CommandOf(es[0]), Next(p, d, es[0]).value, es[1..]))
  }

  lemma {:induction false} TrustedRunIsGenuine(p: Platform, d0: Device, cmds: set<Command>, d: Device, es: seq<Event>)
    requires TwoSlots(d0) && Inv(p, d) && Known(d0, cmds, d) && Run(p, d, es).Some? && AllRegular(es)
    requires TrustedThroughout(p, d, es)
    ensures GenuineThroughout(p, d0, cmds, d, es)
    decreases |es|
  {
    BootsTrustedIsGenuine(p, d0, cmds, d);
    if es != [] {
      StepKnows(p, d0, cmds, d, es[0]);
      StepKeeps(p, d, es[0]);
      TrustedRunIsGenuine(p, d0, cmds + CommandOf(es[0]), Next(p, d, es[0]).value, es[1..]);
    }
  }

  /**
   At every moment of a run the slot that boots, the way back during a trial and the slot that runs hold a
   complete image that was there at the start, byte for byte, or that has the size and the SHA-256 of a
   valid command received since; provided that the web page never switches to a slot into which a chunk
   was written since its last check.
   */
  lemma BootsOnlyGenuineImages(p: Platform, d0: Device, es: seq<Event>)
    requires Fresh(p, d0) && AllRegular(es) && Run(p, d0, es).Some? && NoUncheckedSwitch(p, d0, es, {})
    ensures GenuineThroughout(p, d0, {}, d0, es)
  {
    FreshIsSound(p, d0);
    UncheckedIsEnough(p, d0, es, {});
    TrustedExactlyWithoutChangedSwitch(p, d0, es);
    TrustedRunIsGenuine(p, d0, {}, d0, es);
  }

  // ---------------------------------------------------------------- truthful verdicts

  /** The slot that was promised and what runs, told apart by the verdict of a boot. */
  predicate Truthful(p: Platform, m: Marker, promise: Option<Vouch>, b: Device) {
    && Alive(b) && b.marker == Some(m)
    && var r := b.ram.value;
    && r.report.final.Some? && r.report.pending
    && var st := r.report.final.value;
    && st.requestId == m.requestId && st.targetVersion == m.targetVersion
    && (st.state == Succeeded <==> r.running == m.targetSlot && r.version == m.targetVersion)
    && (st.state == RolledBack <==> r.running != m.targetSlot)
    && (st.state == Failed <==> r.running == m.targetSlot && r.version != m.targetVersion)
    && (st.state == RolledBack ==> r.version == m.previousVersion && st.error == Rollback)
    && (st.state == Succeeded <==> st.error == NoError)
    && (promise.Some? && r.running == m.targetSlot ==>
          && promise.value.Passed? && b.slots[r.running].flash == promise.value.bytes && Holds(p, promise.value))
  }

  lemma BootIsTruthful(p: Platform, d: Device)
    requires Inv(p, d) && d.ram.None? && d.marker.Some?
    ensures BootStep(p, d, true).Some? && Truthful(p, d.marker.value, d.promise, BootStep(p, d, true).value)
  {
    BootloaderKeeps(p, d);
  }

  /**
   Every boot that finds a marker reports it, and truthfully: succeeded exactly when the slot of that
   update runs the promised version, rolled back exactly when the other slot runs, and then it runs
   the version recorded as the previous one. The marker is never taken for a stale one, also when an
   update was forced to the same version or power was lost between storing the marker and switching;
   and if an update stored it, what runs in its slot are the very bytes that passed the checks of its command.
   */
  lemma EveryVerdictIsTruthful(p: Platform, d0: Device, es: seq<Event>)
    requires Fresh(p, d0) && AllRegular(es) && Run(p, d0, es).Some?
    requires Run(p, d0, es).value.ram.None? && Run(p, d0, es).value.marker.Some?
    ensures var d := Run(p, d0, es).value;
            BootStep(p, d, true).Some? && Truthful(p, d.marker.value, d.promise, BootStep(p, d, true).value)
  {
    FreshIsSound(p, d0);
    RunKeeps(p, d0, es);
    BootIsTruthful(p, Run(p, d0, es).value);
  }

  // ---------------------------------------------------------------- the trial of a new image

  /** The image in `running` is on trial, or its trial just ended and the previous one is next. */
  predicate TrialOf(d: Device, running: int, previous: Slot, marker: Option<Marker>) {
    && TwoSlots(d) && running in {0, 1}
    && d.slots[Other(running)] == previous && previous.img in {Valid, Undefined} && d.marker == marker
    && (d.ram.Some? ==> d.ram.value.running == running && d.boot == running && d.slots[running].img == PendingVerify)
    && NextToRun(d) == Other(running)
  }

  lemma CommandKeepsPrevious(p: Platform, d: Device, cmd: Command, valid: bool, flags: Flags, running: int, previous: Slot,
                             marker: Option<Marker>)
    requires Inv(p, d) && TrialOf(d, running, previous, marker) && CommandStep(d, cmd, valid, flags).Some?
    ensures TrialOf(CommandStep(d, cmd, valid, flags).value, running, previous, marker)
  {
  }

  lemma StepKeepsPrevious(p: Platform, d: Device, e: Event, running: int, previous: Slot, marker: Option<Marker>)
    requires Inv(p, d) && TrialOf(d, running, previous, marker) && Next(p, d, e).Some?
    requires Regular(e) && !e.Boot? && !e.MarkAppValid?
    ensures TrialOf(Next(p, d, e).value, running, previous, marker)
  {
    if e.OnCommand? {
      CommandKeepsPrevious(p, d, e.cmd, e.valid, e.flags, running, previous, marker);
    } else if d.ram.Some? {
      assert Trial(d) && d.ram.value.updates == [] && d.ram.value.web.NoSwitch?;
      assert !d.ram.value.report.mqtt.ToErase? && !d.ram.value.report.validator.ToErase?;
    }
  }

  /**
   From the first boot of a new image until it is marked valid, whatever happens, the other slot keeps
   every byte, the marker stays and a reset at that moment runs the other slot.
   */
  lemma {:induction false} TrialKeepsPrevious(p: Platform, d: Device, es: seq<Event>, running: int, previous: Slot,
                                              marker: Option<Marker>)
    requires Inv(p, d) && TrialOf(d, running, previous, marker) && Run(p, d, es).Some? && AllRegular(es)
    requires forall k :: 0 <= k < |es| ==> !es[k].Boot? && !es[k].MarkAppValid?
    ensures TrialOf(Run(p, d, es).value, running, previous, marker)
    decreases |es|
  {
    if es != [] {
      StepKeepsPrevious(p, d, es[0], running, previous, marker);
      StepKeeps(p, d, es[0]);
      TrialKeepsPrevious(p, Next(p, d, es[0]).value, es[1..], running, previous, marker);
    }
  }

  lemma FirstBootIsATrial(p: Platform, d: Device)
    requires Inv(p, d) && d.ram.None? && d.slots[d.boot].img == New
    ensures BootStep(p, d, true).Some?
    ensures var b := BootStep(p, d, true).value;
            Inv(p, b) && TrialOf(b, d.boot, d.slots[Other(d.boot)], d.marker)
  {
    BootloaderKeeps(p, d);
    InitKeeps(p, Bootloader(d));
  }

  lemma BootAfterTrial(p: Platform, d: Device, running: int, previous: Slot, marker: Option<Marker>)
    requires Inv(p, d) && TrialOf(d, running, previous, marker) && d.ram.None?
    ensures BootStep(p, d, true).Some?
    ensures var b := BootStep(p, d, true).value;
            && Alive(b) && b.ram.value.running == Other(running) && b.slots[Other(running)] == previous
            && (marker.Some? && marker.value.targetSlot == running ==>
                  && b.ram.value.report.final.Some?
                  && b.ram.value.report.final.value.requestId == marker.value.requestId
                  && b.ram.value.report.final.value.state == RolledBack)
  {
    if marker.Some? {
      BootIsTruthful(p, d);
    }
  }

  /**
   A new image that is not marked valid is undone: whatever happened during its trial, the boot after
   it runs the previous image, byte for byte, and reports the update as rolled back.
   */
  lemma TrialEndsInThePreviousImage(p: Platform, d0: Device, es: seq<Event>)
    requires Inv(p, d0) && d0.ram.None? && d0.slots[d0.boot].img == New
    requires Run(p, BootStep(p, d0, true).value, es).Some? && AllRegular(es)
    requires forall k :: 0 <= k < |es| ==> !es[k].Boot? && !es[k].MarkAppValid?
    ensures var off := Run(p, BootStep(p, d0, true).value, es).value.(ram := None);
            && BootStep(p, off, true).Some?
            && var b := BootStep(p, off, true).value;
            && Alive(b) && b.ram.value.running == Other(d0.boot)
            && b.slots[Other(d0.boot)] == d0.slots[Other(d0.boot)]
            && (d0.marker.Some? && d0.marker.value.targetSlot == d0.boot ==>
                  && b.ram.value.report.final.Some?
                  && b.ram.value.report.final.value.requestId == d0.marker.value.requestId
                  && b.ram.value.report.final.value.state == RolledBack)
  {
    FirstBootIsATrial(p, d0);
    var b := BootStep(p, d0, true).value;
    TrialKeepsPrevious(p, b, es, d0.boot, d0.slots[Other(d0.boot)], d0.marker);
    RunKeeps(p, b, es);
    var t := Run(p, b, es).value;
    StepKeepsPrevious(p, t, PowerLoss, d0.boot, d0.slots[Other(d0.boot)], d0.marker);
    StepKeeps(p, t, PowerLoss);
    BootAfterTrial(p, t.(ram := None), d0.boot, d0.slots[Other(d0.boot)], d0.marker);
  }

  lemma {:induction false} RunSplits(p: Platform, d: Device, es: seq<Event>, fs: seq<Event>)
    ensures Run(p, d, es + fs) == match Run(p, d, es) case None => None case Some(m) => Run(p, m, fs)
    decreases |es|
  {
    if es == [] {
      assert es + fs == fs;
    } else {
      assert (es + fs)[1..] == es[1..] + fs && (es + fs)[0] == es[0];
      if Next(p, d, es[0]).Some? {
        RunSplits(p, Next(p, d, es[0]).value, es[1..], fs);
      }
    }
  }
}
