/** The final report of an update, published from two tasks (try_publish_final in ota_manager.c). */
module OtaReport {
  import opened Wrappers
  import opened OtaTypes
  import opened OtaDevice
  import opened OtaInvariant
  import opened OtaSafety

  /** How often the final status goes out during `es`. */
  function Publications(es: seq<Event>): nat {
    if es == [] then 0 else (if es[0].PublishFinal? && es[0].ok then 1 else 0) + Publications(es[1..])
  }

  predicate OneBoot(es: seq<Event>) {
    forall k :: 0 <= k < |es| ==> !es[k].Boot?
  }

  lemma StepCounts(p: Platform, d: Device, e: Event)
    requires Next(p, d, e).Some? && !e.Boot? && Next(p, d, e).value.ram.Some?
    ensures d.ram.Some? && Next(p, d, e).value.ram.value.report.published == d.ram.value.report.published + Publications([e])
  {
    assert [e][1..] == [];
  }

  lemma {:induction false} OffStaysOff(p: Platform, d: Device, es: seq<Event>)
    requires d.ram.None? && OneBoot(es) && Run(p, d, es).Some?
    ensures Run(p, d, es).value.ram.None?
    decreases |es|
  {
    if es != [] {
      assert !es[0].Boot?;
      OffStaysOff(p, Next(p, d, es[0]).value, es[1..]);
    }
  }

  lemma {:induction false} RunCounts(p: Platform, d: Device, es: seq<Event>)
    requires Run(p, d, es).Some? && OneBoot(es) && Run(p, d, es).value.ram.Some?
    ensures d.ram.Some? && Run(p, d, es).value.ram.value.report.published == d.ram.value.report.published + Publications(es)
    decreases |es|
  {
    if es != [] {
      var d' := Next(p, d, es[0]).value;
      assert !es[0].Boot?;
      if d'.ram.None? {
        OffStaysOff(p, d', es[1..]);
        assert false;
      }
      RunCounts(p, d', es[1..]);
      StepCounts(p, d, es[0]);
      assert [es[0]][1..] == [];
    }
  }

  /**
   Whatever the interleaving of the MQTT and the validation task, one boot gets the final status out
   at most once, and only when the running image is not on trial any more and the device may accept
   commands again.
   */
  lemma FinalGoesOutAtMostOnce(p: Platform, d0: Device, es: seq<Event>, fs: seq<Event>)
    requires Fresh(p, d0) && AllRegular(es) && AllRegular(fs) && OneBoot(fs)
    requires Run(p, d0, es + [Boot(true)] + fs).Some? && Run(p, d0, es + [Boot(true)] + fs).value.ram.Some?
    ensures var r := Run(p, d0, es + [Boot(true)] + fs).value.ram.value;
            && r.report.published == Publications(fs) <= 1
            && (Publications(fs) == 1 ==> r.report.final.Some? && r.report.ready && !r.validationPending)
  {
    var before := es + [Boot(true)];
    RunSplits(p, d0, before, fs);
    RunSplits(p, d0, es, [Boot(true)]);
    var off := Run(p, d0, es).value;
    var b := BootStep(p, off, true).value;
    assert Run(p, off, [Boot(true)]) == Some(b) by {
      assert [Boot(true)][1..] == [] && Run(p, b, []) == Some(b);
    }
    RunCounts(p, b, fs);
    FreshIsSound(p, d0);
    RunKeeps(p, d0, es);
    StepKeeps(p, off, Boot(true));
    RunKeeps(p, b, fs);
  }

  predicate StoresMarker(e: Event) {
    (e.StoreMarker? && e.ok) || (e.StoreSwitch? && e.ok)
  }

  /**
   The marker leaves NVS only by the erase after a report that went out, or when the switch it announced
   was refused. Whose marker that erase takes is said by ErasedMarkerWasReported.
   */
  lemma MarkerGoesOnlyAfterTheReport(p: Platform, d: Device, e: Event)
    requires Inv(p, d) && Next(p, d, e).Some? && Regular(e)
    requires d.marker.Some? && Next(p, d, e).value.marker != d.marker
    ensures || StoresMarker(e) || (e.SetBoot? && !e.ok) || (e.SetBootSwitch? && !e.ok)
            || (e.EraseReported? && d.ram.Some? && d.ram.value.report.published == 1)
  {
    if e.Boot? {
      BootIsTruthful(p, d);
    }
  }

  /** The last marker that `es` stored. */
  function LastStored(p: Platform, d: Device, es: seq<Event>): Option<Marker>
    decreases |es|
  {
    if es == [] || Next(p, d, es[0]).None? then None
    else
      var d' := Next(p, d, es[0]).value;
      var later := LastStored(p, d', es[1..]);
      if later.None? && StoresMarker(es[0]) then d'.marker else later
  }

  lemma OnlyStoresSetTheMarker(p: Platform, d: Device, e: Event)
    requires Next(p, d, e).Some? && !e.Boot?
    ensures if StoresMarker(e) then Next(p, d, e).value.marker.Some?
            else Next(p, d, e).value.marker in {d.marker, None}
  {
  }

  /** Between two boots NVS holds the marker that was stored last, or the one the boot found, or none. */
  lemma {:induction false} MarkerIsTheLastStored(p: Platform, d: Device, es: seq<Event>)
    requires OneBoot(es) && Run(p, d, es).Some? && Run(p, d, es).value.marker.Some?
    ensures var last := LastStored(p, d, es);
            Run(p, d, es).value.marker == if last.Some? then last else d.marker
    decreases |es|
  {
    if es != [] {
      assert !es[0].Boot?;
      OnlyStoresSetTheMarker(p, d, es[0]);
      MarkerIsTheLastStored(p, Next(p, d, es[0]).value, es[1..]);
    }
  }

  predicate NoStore(es: seq<Event>) {
    forall k :: 0 <= k < |es| ==> !StoresMarker(es[k])
  }

  lemma {:induction false} NothingStored(p: Platform, d: Device, es: seq<Event>)
    requires NoStore(es)
    ensures LastStored(p, d, es) == None
    decreases |es|
  {
    if es != [] && Next(p, d, es[0]).Some? {
      assert !StoresMarker(es[0]);
      NothingStored(p, Next(p, d, es[0]).value, es[1..]);
    }
  }

  // ---------------------------------------------------------------- a report that is repeated

  /** The session that began with the report of `m`, while no other marker was stored. */
  predicate Reporting(d: Device, m: Marker, running: int, version: Version, final: Option<Status>) {
    && TwoSlots(d)
    && (d.marker.Some? ==> d.marker.value == m)
    && (d.ram.Some? ==>
          && d.ram.value.running == running && d.ram.value.version == version
          && d.ram.value.report.final == final
          && !d.ram.value.web.Stored? && !d.ram.value.web.ToRestart?
          && (|d.ram.value.updates| == 1 ==>
                var s := d.ram.value.updates[0].stage; !s.Marked? && !s.Switched? && !s.Restarting?))
  }

  lemma CommandKeepsReporting(p: Platform, d: Device, cmd: Command, valid: bool, flags: Flags, m: Marker, running: int,
                              version: Version, final: Option<Status>)
    requires Inv(p, d) && Reporting(d, m, running, version, final) && CommandStep(d, cmd, valid, flags).Some?
    requires flags != NotYetSet
    ensures Reporting(CommandStep(d, cmd, valid, flags).value, m, running, version, final)
  {
    var r := d.ram.value;
    CommandKeepsOneUpdate(r, cmd, valid, EnvOf(r, flags));
  }

  predicate OfALoad(e: Event) {
    e.BeginFlash? || e.WriteChunk? || e.ReportProgress? || e.EndOfData?
  }

  lemma LoadKeepsReporting(p: Platform, d: Device, e: Event, d': Device, m: Marker, running: int, version: Version,
                           final: Option<Status>)
    requires Reporting(d, m, running, version, final) && Next(p, d, e) == Some(d')
    requires d.ram.Some? && |d.ram.value.updates| <= 1 && OfALoad(e)
    ensures Reporting(d', m, running, version, final)
  {
  }

  lemma DownloadKeepsReporting(p: Platform, d: Device, e: Event, d': Device, m: Marker, running: int, version: Version,
                               final: Option<Status>)
    requires Reporting(d, m, running, version, final) && Next(p, d, e) == Some(d')
    requires d.ram.Some? && |d.ram.value.updates| <= 1 && OfADownload(e)
    ensures Reporting(d', m, running, version, final)
  {
    if OfALoad(e) {
      LoadKeepsReporting(p, d, e, d', m, running, version, final);
    }
  }

  lemma InstallKeepsReporting(p: Platform, d: Device, e: Event, d': Device, m: Marker, running: int, version: Version,
                              final: Option<Status>)
    requires Reporting(d, m, running, version, final) && Next(p, d, e) == Some(d')
    requires d.ram.Some? && |d.ram.value.updates| <= 1 && OfAnInstall(e) && !StoresMarker(e)
    ensures Reporting(d', m, running, version, final)
  {
  }

  lemma OtherKeepsReporting(p: Platform, d: Device, e: Event, d': Device, m: Marker, running: int, version: Version,
                            final: Option<Status>)
    requires Reporting(d, m, running, version, final) && Next(p, d, e) == Some(d')
    requires !OfADownload(e) && !OfAnInstall(e) && !e.Boot? && !e.OnCommand? && !StoresMarker(e)
    ensures Reporting(d', m, running, version, final)
  {
  }

  lemma StepKeepsReporting(p: Platform, d: Device, e: Event, m: Marker, running: int, version: Version,
                           final: Option<Status>)
    requires Inv(p, d) && Reporting(d, m, running, version, final) && Next(p, d, e).Some?
    requires !e.Boot? && !StoresMarker(e) && Regular(e)
    ensures Reporting(Next(p, d, e).value, m, running, version, final)
  {
    if e.OnCommand? {
      CommandKeepsReporting(p, d, e.cmd, e.valid, e.flags, m, running, version, final);
    } else if OfADownload(e) {
      DownloadKeepsReporting(p, d, e, Next(p, d, e).value, m, running, version, final);
    } else if OfAnInstall(e) {
      InstallKeepsReporting(p, d, e, Next(p, d, e).value, m, running, version, final);
    } else {
      OtherKeepsReporting(p, d, e, Next(p, d, e).value, m, running, version, final);
    }
  }

  lemma {:induction false} RunKeepsReporting(p: Platform, d: Device, es: seq<Event>, m: Marker, running: int,
                                             version: Version, final: Option<Status>)
    requires Inv(p, d) && Reporting(d, m, running, version, final) && Run(p, d, es).Some?
    requires AllRegular(es) && OneBoot(es) && NoStore(es)
    ensures Inv(p, Run(p, d, es).value) && Reporting(Run(p, d, es).value, m, running, version, final)
    decreases |es|
  {
    if es != [] {
      assert !es[0].Boot? && !StoresMarker(es[0]);
      StepKeepsReporting(p, d, es[0], m, running, version, final);
      StepKeeps(p, d, es[0]);
      RunKeepsReporting(p, Next(p, d, es[0]).value, es[1..], m, running, version, final);
    }
  }

  /**
   A power loss after the final status went out and before the marker was erased repeats the very same
   status at the next boot, unless another marker was stored in between.
   */
  lemma LostEraseRepeatsTheReport(p: Platform, d0: Device, es: seq<Event>)
    requires Inv(p, d0) && d0.ram.None? && d0.marker.Some?
    requires AllRegular(es) && OneBoot(es) && NoStore(es)
    requires Run(p, BootStep(p, d0, true).value, es).Some?
    requires var d := Run(p, BootStep(p, d0, true).value, es).value;
             d.ram.Some? && d.ram.value.report.published == 1 && d.marker.Some?
    ensures var first := BootStep(p, d0, true).value;
            var off := Run(p, first, es).value.(ram := None);
            && BootStep(p, off, true).Some?
            && first.ram.value.report.final.Some?
            && BootStep(p, off, true).value.ram.value.report.final == first.ram.value.report.final
            && BootStep(p, off, true).value.ram.value.report.ready
  {
    var first := BootStep(p, d0, true).value;
    var m := d0.marker.value;
    var r := first.ram.value;
    BootIsTruthful(p, d0);
    StepKeeps(p, d0, Boot(true));
    assert Reporting(first, m, r.running, r.version, r.report.final);
    RunKeepsReporting(p, first, es, m, r.running, r.version, r.report.final);
    SameReportAgain(p, Run(p, first, es).value, m, r.running, r.version, r.report.final);
  }

  lemma SameReportAgain(p: Platform, d: Device, m: Marker, running: int, version: Version, final: Option<Status>)
    requires Inv(p, d) && Reporting(d, m, running, version, final) && final == Some(ReportOf(m, version, running))
    requires d.ram.Some? && d.ram.value.report.published == 1 && d.marker.Some?
    ensures var off := d.(ram := None);
            && BootStep(p, off, true).Some?
            && BootStep(p, off, true).value.ram.value.report.final == final
            && BootStep(p, off, true).value.ram.value.report.ready
  {
    StepKeeps(p, d, PowerLoss);
    BootIsTruthful(p, d.(ram := None));
  }

  // ---------------------------------------------------------------- whose marker is erased

  /** The final status of `m` went out, once, and is not pending any more. */
  predicate WentOut(r: Report, m: Marker) {
    && r.published == 1 && !r.pending && r.final.Some?
    && r.final.value.requestId == m.requestId && r.final.value.targetVersion == m.targetVersion
  }

  /**
   The erase that follows a report takes the marker stored last since the boot; when none was stored,
   that is the marker of the very report that went out. OtaCorners.ALateEraseTakesTheNextMarker is a run
   in which one was stored.
   */
  lemma ErasedMarkerWasReported(p: Platform, d0: Device, es: seq<Event>, who: Task)
    requires Inv(p, d0) && d0.ram.None?
    requires AllRegular(es) && OneBoot(es) && Run(p, BootStep(p, d0, true).value, es).Some?
    requires var d := Run(p, BootStep(p, d0, true).value, es).value;
             d.marker.Some? && EraseStep(d, who, true).Some?
    ensures var first := BootStep(p, d0, true).value;
            var d := Run(p, first, es).value;
            var last := LastStored(p, first, es);
            && (if last.Some? then d.marker == last else d.marker == d0.marker)
            && (NoStore(es) ==> last.None? && WentOut(d.ram.value.report, d.marker.value))
  {
    var first := BootStep(p, d0, true).value;
    MarkerIsTheLastStored(p, first, es);
    BootKeepsTheMarker(p, d0);
    if NoStore(es) {
      NothingStored(p, first, es);
      BootIsTruthful(p, d0);
      var r := first.ram.value;
      StepKeeps(p, d0, Boot(true));
      RunKeepsReporting(p, first, es, d0.marker.value, r.running, r.version, r.report.final);
    }
  }

  lemma BootKeepsTheMarker(p: Platform, d: Device)
    requires Inv(p, d) && d.ram.None?
    ensures BootStep(p, d, true).Some? && BootStep(p, d, true).value.marker == d.marker
  {
    if d.marker.Some? {
      BootIsTruthful(p, d);
    }
  }
}
