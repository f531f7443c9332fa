/** What a command is answered with (ota_decide) and the record kept of it (ota_manager_handle_command). */
module OtaDecide {
  import opened Wrappers
  import opened OtaTypes
  import opened OtaTracker

  datatype Env = Env(runningVersion: Option<Version>, deviceBusy: bool, slotSize: UInt32)

  datatype Decision = Accept | Reject(error: OtaError) | Replay

  /** `slotSize` 0 means that the slot is unknown. */
  function Decide(t: seq<Status>, cmd: Command, valid: bool, env: Env): Decision {
    if Lookup(t, cmd.requestId).Some? then Replay
    else if exists k :: 0 <= k < |t| && IsActive(t[k].state) then Reject(Busy)
    else if !valid then Reject(InvalidCommand)
    else if env.deviceBusy then Reject(Busy)
    else if env.slotSize > 0 && cmd.size > env.slotSize then Reject(ImageTooLarge)
    else if !cmd.force && env.runningVersion == Some(cmd.version) then Reject(SameVersion)
    else Accept
  }

  /** The same, on the record as the firmware keeps it. */
  method DecideCommand(t: Tracker, cmd: Command, valid: bool, env: Env) returns (d: Decision)
    requires t.Valid()
    ensures d == Decide(t.Contents(), cmd, valid, env)
  {
    var known := t.Find(cmd.requestId);
    if known.Some? {
      return Replay;
    }
    var active := t.Active();
    if active.Some? {
      return Reject(Busy);
    }
    if !valid {
      return Reject(InvalidCommand);
    }
    if env.deviceBusy {
      return Reject(Busy);
    }
    if env.slotSize > 0 && cmd.size > env.slotSize {
      return Reject(ImageTooLarge);
    }
    if !cmd.force && env.runningVersion == Some(cmd.version) {
      return Reject(SameVersion);
    }
    return Accept;
  }

  /** The record after the command, the status that answers it and whether an update was started. */
  datatype Handled = Handled(tracker: seq<Status>, answer: Status, started: bool)

  function Handle(t: seq<Status>, cmd: Command, valid: bool, env: Env): Handled {
    match Decide(t, cmd, valid, env)
    case Replay =>
      Handled(t, t[IndexOf(t, cmd.requestId)], false)
    case Reject(e) =>
      var st := Status(cmd.requestId, cmd.version, Rejected, e, -1);
      Handled(Updated(t, st), st, false)
    case Accept =>
      var st := Status(cmd.requestId, cmd.version, Accepted, NoError, -1);
      Handled(Updated(t, st), st, true)
  }

  /** The same, on the record as the firmware keeps it. */
  method AnswerCommand(t: Tracker, cmd: Command, valid: bool, env: Env) returns (answer: Status, started: bool)
    requires t.Valid()
    modifies t`count, t.entries
    ensures t.Valid() && Handled(t.Contents(), answer, started) == Handle(old(t.Contents()), cmd, valid, env)
  {
    var d := DecideCommand(t, cmd, valid, env);
    match d {
      case Replay =>
        var last := t.Find(cmd.requestId);
        answer, started := last.value, false;
      case Reject(error) =>
        t.Update(cmd.requestId, cmd.version, Rejected, error, -1);
        answer, started := Status(cmd.requestId, cmd.version, Rejected, error, -1), false;
      case Accept =>
        t.Update(cmd.requestId, cmd.version, OtaState.Accepted, NoError, -1);
        answer, started := Status(cmd.requestId, cmd.version, OtaState.Accepted, NoError, -1), true;
    }
  }

  /**
   An update starts exactly for a new, valid command that fits, of another version unless forced,
   on a device that is doing nothing else; and whatever the command, the record stays sound.
   */
  lemma HandleKeepsTheRecord(t: seq<Status>, cmd: Command, valid: bool, env: Env)
    requires WellFormed(t) && AtMostOneActive(t)
    ensures var h := Handle(t, cmd, valid, env);
            && WellFormed(h.tracker) && AtMostOneActive(h.tracker)
            && Lookup(h.tracker, cmd.requestId) == Some(h.answer)
            && (h.started ==> h.answer == Status(cmd.requestId, cmd.version, OtaState.Accepted, NoError, -1))
            && (h.started <==>
                  && (forall k :: 0 <= k < |t| ==> t[k].requestId != cmd.requestId && !IsActive(t[k].state))
                  && valid && !env.deviceBusy
                  && (env.slotSize == 0 || cmd.size <= env.slotSize)
                  && (cmd.force || env.runningVersion != Some(cmd.version)))
            && (forall k :: 0 <= k < |t| && IsActive(t[k].state) ==> Lookup(h.tracker, t[k].requestId) == Some(t[k]))
  {
    var h := Handle(t, cmd, valid, env);
    if Decide(t, cmd, valid, env) != Replay {
      UpdatedKeepsWellFormed(t, h.answer);
      LegalKeepsAtMostOneActive(t, h.answer);
      UpdateByRequest(t, h.answer, cmd.requestId);
    }
    forall k | 0 <= k < |t| && IsActive(t[k].state)
      ensures Lookup(h.tracker, t[k].requestId) == Some(t[k])
    {
      LookupIsTheEntry(t, k);
      UpdateByRequest(t, h.answer, t[k].requestId);
    }
  }

  /**
   The promise of QoS 1: once a command has been recorded, any redelivery of it starts nothing,
   leaves the record alone and is answered with the last status the request reached, as long as at
   most OTA_TRACKER_SIZE - 2 other requests entered the record since.
   */
  lemma RedeliveryRunsNothing(t: seq<Status>, st: Status, sts: seq<Status>, again: Command, valid: bool, env: Env)
    requires WellFormed(t) && AtMostOneActive(t) && IndexOf(t, st.requestId) < 0
    requires LegalRun(t, [st] + sts)
    requires |NewIds(Updated(t, st), sts)| <= OTA_TRACKER_SIZE - 2
    requires again.requestId == st.requestId
    ensures var now := RecordAll(t, [st] + sts);
            Handle(now, again, valid, env) == Handled(now, LastStatus(st.requestId, st, sts), false)
  {
    RememberedWhileFewAreNewer(t, st, sts);
  }

  /**
   A rejection names a reason that holds, and the first one that does: another request in flight, then the command
   itself, then a busy device, then the size, then the version.
   */
  lemma RejectionsAreTrue(t: seq<Status>, cmd: Command, valid: bool, env: Env)
    requires Lookup(t, cmd.requestId).None? && !Handle(t, cmd, valid, env).started
    ensures var answer := Handle(t, cmd, valid, env).answer;
            && answer == Status(cmd.requestId, cmd.version, Rejected, answer.error, -1)
            && var inFlight := exists k :: 0 <= k < |t| && IsActive(t[k].state);
            && var tooLarge := 0 < env.slotSize < cmd.size;
            && (answer.error == Busy <==> inFlight || (valid && env.deviceBusy))
            && (answer.error == InvalidCommand <==> !inFlight && !valid)
            && (answer.error == ImageTooLarge <==> !inFlight && valid && !env.deviceBusy && tooLarge)
            && (answer.error == SameVersion <==>
                  !inFlight && valid && !env.deviceBusy && !tooLarge && !cmd.force && env.runningVersion == Some(cmd.version))
            && ((exists k :: 0 <= k < |t| && IsActive(t[k].state)) ==> answer.error == Busy)
            && match answer.error
               case Busy => env.deviceBusy || exists k :: 0 <= k < |t| && IsActive(t[k].state)
               case InvalidCommand => !valid
               case ImageTooLarge => valid && 0 < env.slotSize < cmd.size
               case SameVersion => valid && !cmd.force && env.runningVersion == Some(cmd.version)
               case _ => false
  {
  }
}
