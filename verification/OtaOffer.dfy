/** What the web page may switch to, and that it is never an image that failed its trial. */
module OtaOffer {
  import opened Wrappers
  import opened OtaTypes
  import opened OtaDevice
  import opened OtaInvariant
  import opened OtaSafety

  /**
   The page can choose the switch exactly when nothing is under way and the other slot holds a readable image
   of another version that is not marked as new, on trial or bad.
   */
  lemma ChoosesExactly(p: Platform, d: Device, id: RequestId)
    requires Alive(d)
    ensures var r := d.ram.value;
            var other := d.slots[1 - r.running];
            Next(p, d, ChooseSwitch(id, false)).Some? <==>
              && r.web.NoSwitch? && !r.switchPending && !r.validationPending
              && (forall k :: 0 <= k < |r.tracker| ==> !IsActive(r.tracker[k].state))
              && id != "" && other.img in {Valid, Undefined}
              && p.versionOf(other.flash) != "" && p.versionOf(other.flash) != r.version
  {
    var r := d.ram.value;
    var other := d.slots[Other(r.running)];
    assert Next(p, d, ChooseSwitch(id, false)) == ChooseStep(p, d, id, false);
    assert other.img.Valid? || other.img.Undefined? || other.img.Invalid? || other.img.New? || other.img.PendingVerify?;
    assert AnyActive(r.tracker) <==> exists k :: 0 <= k < |r.tracker| && IsActive(r.tracker[k].state);
  }

  /** What is written down then: the version that was read, the one that runs, and the slot. */
  lemma ChoosesThat(p: Platform, d: Device, id: RequestId, stale: bool)
    requires Alive(d) && Next(p, d, ChooseSwitch(id, stale)).Some?
    ensures var r := d.ram.value;
            var o := 1 - r.running;
            var d' := Next(p, d, ChooseSwitch(id, stale)).value;
            && d' == d.(ram := d'.ram) && d'.ram == Some(r.(switchPending := true, web := d'.ram.value.web))
            && d'.ram.value.web == Chosen(Marker(id, p.versionOf(d.slots[o].flash), r.version, o))
  {
  }

  // ---------------------------------------------------------------- an image that failed its trial

  /** Nothing was written since the update began. */
  predicate NothingReceived(stage: Stage) {
    || stage.Starting? || stage.Preparing?
    || (stage.Writing? && stage.received == []) || (stage.Complete? && stage.received == [])
  }

  /** Slot `s` is marked bad, the other one runs, and nothing is on its way to make `s` boot. */
  predicate KeptAway(d: Device, s: int) {
    && TwoSlots(d) && s in {0, 1} && d.slots[s].img == Invalid && d.boot == Other(s)
    && (d.ram.Some? ==>
          && d.ram.value.running == Other(s) && d.ram.value.web.NoSwitch?
          && forall i :: 0 <= i < |d.ram.value.updates| ==> NothingReceived(d.ram.value.updates[i].stage))
  }

  /** The step marks the image of slot `s` as bad: the validation gave up, or the bootloader did. */
  predicate Rejects(d: Device, e: Event, s: int) {
    || (e == RollBackNow(true) && Alive(d) && s == d.ram.value.running)
    || (e.Boot? && TwoSlots(d) && d.ram.None? && s == d.boot && d.slots[d.boot].img == PendingVerify)
  }

  lemma RejectingKeepsAway(p: Platform, d: Device, e: Event, s: int, d': Device)
    requires Inv(p, d) && Rejects(d, e, s) && Next(p, d, e) == Some(d') && Regular(e)
    ensures KeptAway(d', s)
  {
  }

  lemma DownloadKeepsAway(p: Platform, d: Device, e: Event, s: int, d': Device)
    requires KeptAway(d, s) && Next(p, d, e) == Some(d') && !e.WriteChunk? && OfADownload(e)
    ensures KeptAway(d', s)
  {
  }

  lemma InstallKeepsAway(p: Platform, d: Device, e: Event, s: int, d': Device)
    requires KeptAway(d, s) && Next(p, d, e) == Some(d') && OfAnInstall(e)
    ensures KeptAway(d', s)
  {
  }

  lemma OtherKeepsAway(p: Platform, d: Device, e: Event, s: int, d': Device)
    requires Inv(p, d) && KeptAway(d, s) && Next(p, d, e) == Some(d') && !OfADownload(e) && !OfAnInstall(e)
    ensures KeptAway(d', s)
  {
  }

  predicate NoChunk(es: seq<Event>) {
    forall k :: 0 <= k < |es| ==> !es[k].WriteChunk?
  }

  lemma {:induction false} StaysKeptAway(p: Platform, d: Device, es: seq<Event>, s: int, d': Device)
    requires Inv(p, d) && KeptAway(d, s) && AllRegular(es) && NoChunk(es) && Run(p, d, es) == Some(d')
    ensures Inv(p, d') && KeptAway(d', s)
    decreases |es|
  {
    if es != [] {
      var e, d1 := es[0], Next(p, d, es[0]).value;
      assert !e.WriteChunk?;
      if OfADownload(e) {
        DownloadKeepsAway(p, d, e, s, d1);
      } else if OfAnInstall(e) {
        InstallKeepsAway(p, d, e, s, d1);
      } else {
        OtherKeepsAway(p, d, e, s, d1);
      }
      StepKeeps(p, d, e);
      StaysKeptAway(p, d1, es[1..], s, d');
    }
  }

  lemma KeptAwayIsNotOffered(p: Platform, d: Device, s: int, id: RequestId, stale: bool)
    requires KeptAway(d, s)
    ensures Next(p, d, ChooseSwitch(id, stale)).None?
    ensures d.boot == 1 - s && (d.ram.Some? ==> d.ram.value.running == 1 - s)
  {
  }

  lemma RejectedIsKeptAway(p: Platform, d: Device, e: Event, s: int, rejected: Device, fs: seq<Event>, now: Device)
    requires Inv(p, d) && Rejects(d, e, s) && Regular(e) && Next(p, d, e) == Some(rejected)
    requires AllRegular(fs) && NoChunk(fs) && Run(p, rejected, fs) == Some(now)
    ensures KeptAway(now, s)
  {
    RejectingKeepsAway(p, d, e, s, rejected);
    StepKeeps(p, d, e);
    StaysKeptAway(p, rejected, fs, s, now);
  }

  /**
   An image that was rolled back, or given up by the bootloader, is never offered again, nor does it boot,
   until something is written to its slot.
   */
  lemma RejectedImageIsNotOffered(p: Platform, d0: Device, es: seq<Event>, d: Device, e: Event, s: int, rejected: Device,
                                  fs: seq<Event>, now: Device, id: RequestId, stale: bool)
    requires Fresh(p, d0) && AllRegular(es) && Run(p, d0, es) == Some(d)
    requires Rejects(d, e, s) && Regular(e) && Next(p, d, e) == Some(rejected)
    requires AllRegular(fs) && NoChunk(fs) && Run(p, rejected, fs) == Some(now)
    ensures Next(p, now, ChooseSwitch(id, stale)).None?
    ensures now.boot == 1 - s && (now.ram.Some? ==> now.ram.value.running == 1 - s)
  {
    FreshIsSound(p, d0);
    RunKeeps(p, d0, es);
    RejectedIsKeptAway(p, d, e, s, rejected, fs, now);
    KeptAwayIsNotOffered(p, now, s, id, stale);
  }
}
