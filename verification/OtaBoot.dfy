/** What a boot after an update requires: ota_boot_decide and ota_validation_step in ota_logic.c. */
module OtaBoot {
  import opened Wrappers
  import opened OtaTypes

  const OTA_VALIDATE_TIMEOUT_S := 180

  datatype BootPlan = BootPlan(validate: bool, report: bool, state: OtaState, error: OtaError, clearMarker: bool)

  function BootDecide(marker: Option<Marker>, version: Option<Version>, running: int, img: ImgState): BootPlan {
    var validate := img == PendingVerify || img == New;
    match marker
    case None => BootPlan(validate, false, Succeeded, NoError, false)
    case Some(m) =>
      if running == m.targetSlot then
        if version == Some(m.targetVersion) then BootPlan(validate, true, Succeeded, NoError, false)
        else BootPlan(validate, true, Failed, Internal, false)
      else if version == Some(m.previousVersion) then BootPlan(validate, true, RolledBack, Rollback, false)
      else BootPlan(validate, false, Succeeded, NoError, true)
  }

  // ---------------------------------------------------------------- what a boot may say of an update

  /** The update of the marker is known to have ended: its slot runs, or the version before it runs again. */
  predicate Ended(marker: Option<Marker>, version: Version, running: int) {
    marker.Some? && (running == marker.value.targetSlot || version == marker.value.previousVersion)
  }

  /** `st` says how the update of `m` ended, seen from the slot and the version that run. */
  predicate TellsTheEnd(m: Marker, version: Version, running: int, st: Status) {
    && st.requestId == m.requestId && st.targetVersion == m.targetVersion && st.progress == -1
    && (running == m.targetSlot && version == m.targetVersion ==> st.state == Succeeded && st.error == NoError)
    && (running == m.targetSlot && version != m.targetVersion ==> st.state == Failed && st.error == Internal)
    && (running != m.targetSlot ==> st.state == RolledBack && st.error == Rollback)
  }

  datatype Verdict = Wait | MarkValid | RollBack

  function ValidationStep(wifi: bool, mqtt: bool, elapsedS: int): Verdict {
    if elapsedS >= OTA_VALIDATE_TIMEOUT_S then RollBack
    else if wifi && mqtt then MarkValid
    else Wait
  }

  // ---------------------------------------------------------------- the validation task

  /** What a round of validate_task sees: the two connections and the whole seconds since the boot. */
  datatype Poll = Poll(wifi: bool, mqtt: bool, elapsedS: nat)

  /** The clock does not go back, and some round comes after the timeout. */
  ghost predicate ClockRuns(polls: nat -> Poll) {
    && (forall j: nat, k: nat :: j <= k ==> polls(j).elapsedS <= polls(k).elapsedS)
    && exists n: nat :: polls(n).elapsedS >= OTA_VALIDATE_TIMEOUT_S
  }

  predicate InTime(p: Poll) {
    p.wifi && p.mqtt && p.elapsedS < 180
  }

  /**
   The loop of validate_task: the image is marked valid exactly when some round within the timeout sees both
   connections, and it is the first such round; otherwise it is rolled back in the first round past the timeout.
   */
  method Validate(polls: nat -> Poll) returns (verdict: Verdict, round: nat)
    requires ClockRuns(polls)
    ensures verdict == MarkValid <==> exists k: nat :: InTime(polls(k))
    ensures verdict == MarkValid ==> InTime(polls(round)) && forall k :: 0 <= k < round ==> !InTime(polls(k))
    ensures verdict != MarkValid ==> verdict == RollBack && polls(round).elapsedS >= 180
    ensures forall k :: 0 <= k < round ==> polls(k).elapsedS < 180
  {
    ghost var late: nat :| polls(late).elapsedS >= OTA_VALIDATE_TIMEOUT_S;
    round := 0;
    verdict := ValidationStep(polls(0).wifi, polls(0).mqtt, polls(0).elapsedS);
    while verdict == Wait
      invariant forall k :: 0 <= k < round ==> !InTime(polls(k)) && polls(k).elapsedS < OTA_VALIDATE_TIMEOUT_S
      invariant verdict == ValidationStep(polls(round).wifi, polls(round).mqtt, polls(round).elapsedS)
      decreases late - round
    {
      round := round + 1;
      verdict := ValidationStep(polls(round).wifi, polls(round).mqtt, polls(round).elapsedS);
    }
    if verdict == RollBack {
      forall k: nat ensures !InTime(polls(k)) {
        assert round <= k ==> polls(round).elapsedS <= polls(k).elapsedS;
      }
    }
  }
}
