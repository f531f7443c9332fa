/** What the record of handled requests means while the device works (ota_manager.c). */
module OtaRequests {
  import opened Wrappers
  import opened OtaTypes
  import opened OtaTracker
  import opened OtaDecide
  import opened OtaDevice
  import opened OtaInvariant
  import opened OtaSafety

  // ---------------------------------------------------------------- one writer

  /** `chunk` continues what the one request in flight received, in the slot `s` that does not run. */
  predicate WrittenByTheActive(d: Device, chunk: seq<byte>, s: int, flash: seq<byte>) {
    && Alive(d)
    && var r := d.ram.value;
    && s == Other(r.running) && s != d.boot
    && |r.updates| == 1 && r.updates[0].stage.Writing?
    && (forall k :: 0 <= k < |r.tracker| ==>
          (IsActive(r.tracker[k].state) <==> r.tracker[k].requestId == r.updates[0].cmd.requestId))
    && r.updates[0].stage.received + chunk <= flash
    && |r.updates[0].stage.received| + |chunk| <= r.updates[0].cmd.size <= OTA_SLOT_SIZE
    && |flash| <= OTA_SLOT_SIZE
  }

  /**
   Only the download of the one request in flight writes flash: into the slot that does not run,
   never past the size its command announced nor past the end of the slot.
   */
  lemma OnlyTheActiveDownloadWrites(p: Platform, d: Device, e: Event, d': Device, s: int)
    requires Inv(p, d) && Next(p, d, e) == Some(d') && s in {0, 1}
    ensures TwoSlots(d')
    ensures d'.slots[s].flash != d.slots[s].flash ==>
              e.WriteChunk? && WrittenByTheActive(d, e.chunk, s, d'.slots[s].flash)
  {
    TwoSlotsStay(p, d, e);
    if e.WriteChunk? {
      WriteIsTheActives(p, d, e.i, e.chunk, e.rest, d', s);
    } else if e.CheckImage? {
      CheckLeavesFlash(p, d, e.i, d', s);
    } else {
      BytesStay(p, d, e);
    }
  }

  lemma CheckLeavesFlash(p: Platform, d: Device, i: nat, d': Device, s: int)
    requires TwoSlots(d) && CheckStep(p, d, i) == Some(d') && s in {0, 1}
    ensures TwoSlots(d') && d'.slots[s].flash == d.slots[s].flash
  {
  }

  lemma WriteIsTheActives(p: Platform, d: Device, i: nat, chunk: seq<byte>, rest: seq<byte>, d': Device, s: int)
    requires Inv(p, d) && WriteStep(d, i, chunk, rest) == Some(d') && s in {0, 1}
    ensures TwoSlots(d')
    ensures d'.slots[s].flash != d.slots[s].flash ==> WrittenByTheActive(d, chunk, s, d'.slots[s].flash)
  {
    TheActiveRequest(d.ram.value);
  }

  lemma TheActiveRequest(r: Ram)
    requires OneUpdate(r) && |r.updates| == 1
    ensures forall k :: 0 <= k < |r.tracker| ==>
              (IsActive(r.tracker[k].state) <==> r.tracker[k].requestId == r.updates[0].cmd.requestId)
  {
    forall k | 0 <= k < |r.tracker| && r.tracker[k].requestId == r.updates[0].cmd.requestId
      ensures IsActive(r.tracker[k].state)
    {
      LookupIsTheEntry(r.tracker, k);
    }
  }

  // ---------------------------------------------------------------- requests only move forward

  /** `b` is what the record may say of a request after it said `a`. */
  predicate Forward(a: Status, b: Status) {
    || a == b
    || Rank(a.state) < Rank(b.state)
    || (a.state == Downloading && b.state == Downloading && a.progress < b.progress)
  }

  lemma ForwardIsTransitive(a: Status, b: Status, c: Status)
    requires Forward(a, b) && Forward(b, c)
    ensures Forward(a, c)
  {
  }

  /** What a command is answered with. */
  function Answer(d: Device, cmd: Command, valid: bool, flags: Flags): Status
    requires Alive(d)
  {
    Handle(d.ram.value.tracker, cmd, valid, EnvOf(d.ram.value, flags)).answer
  }

  /** What a step records, if anything. */
  function Recorded(d: Device, e: Event): Option<Status>
    requires Alive(d)
  {
    var r := d.ram.value;
    match e
    case OnCommand(cmd, valid, flags) =>
      if Decide(r.tracker, cmd, valid, EnvOf(r, flags)).Replay? then None
      else Some(Handle(r.tracker, cmd, valid, EnvOf(r, flags)).answer)
    case StartTask(i, ok) => if ok then None else FailureOf(r, i, NoMemory)
    case DownloadFails(i, error) => FailureOf(r, i, error)
    case BeginFlash(i) => ProgressOf(r, i, Downloading, 0)
    case ReportProgress(i, percent) => ProgressOf(r, i, Downloading, percent)
    case EndOfData(i) => ProgressOf(r, i, Verifying, -1)
    case Install(i) => ProgressOf(r, i, Installing, -1)
    case StoreMarker(i, ok) => if ok then None else FailureOf(r, i, FlashError)
    case SetBoot(i, ok, _) => if ok then None else FailureOf(r, i, FlashError)
    case ReportRebooting(i) => ProgressOf(r, i, Rebooting, -1)
    case _ => None
  }

  function FailureOf(r: Ram, i: nat, error: OtaError): Option<Status> {
    if i < |r.updates| then Some(Status(r.updates[i].cmd.requestId, r.updates[i].cmd.version, Failed, error, -1)) else None
  }

  function ProgressOf(r: Ram, i: nat, state: OtaState, progress: int): Option<Status> {
    if i < |r.updates| then Some(Status(r.updates[i].cmd.requestId, r.updates[i].cmd.version, state, NoError, progress)) else None
  }

  /** Within one boot the record changes by these recordings and in no other way. */
  lemma StepRecords(p: Platform, d: Device, e: Event)
    requires Alive(d) && Next(p, d, e).Some? && Next(p, d, e).value.ram.Some?
    ensures Next(p, d, e).value.ram.value.tracker ==
            match Recorded(d, e) case None => d.ram.value.tracker case Some(st) => Updated(d.ram.value.tracker, st)
  {
  }

  /** What the update in flight records is further on than its stage, or a higher percentage. */
  lemma RecordingIsFurtherOn(p: Platform, d: Device, e: Event)
    requires Alive(d) && |d.ram.value.updates| <= 1 && Next(p, d, e).Some? && !e.OnCommand? && Recorded(d, e).Some?
    ensures var r := d.ram.value;
            var st := Recorded(d, e).value;
            && |r.updates| == 1 && st.requestId == r.updates[0].cmd.requestId
            && (|| Rank(StateAt(r.updates[0].stage)) < Rank(st.state)
                || (&& r.updates[0].stage.Writing? && st.state == Downloading
                    && Lookup(r.tracker, st.requestId).Some? && Lookup(r.tracker, st.requestId).value.progress < st.progress))
  {
  }

  /** What is reported of a download is a percentage, and a higher one than the last. */
  lemma ProgressIsAPercentage(p: Platform, d: Device, e: Event)
    requires Alive(d) && e.ReportProgress? && Next(p, d, e).Some?
    ensures UpdateAt(d, e.i)
    ensures var last := Lookup(d.ram.value.tracker, d.ram.value.updates[e.i].cmd.requestId);
            last.Some? && last.value.progress < e.percent <= 100
  {
  }

  lemma UpdateIsLegal(r: Ram, st: Status)
    requires OneUpdate(r) && |r.updates| == 1 && st.requestId == r.updates[0].cmd.requestId
    ensures Legal(r.tracker, st) && Lookup(r.tracker, st.requestId).Some?
    ensures Lookup(r.tracker, st.requestId).value.state == StateAt(r.updates[0].stage)
  {
  }

  /** A recording is a new request that a command brought, or the next state of the request in flight. */
  lemma RecordingIsLegal(p: Platform, d: Device, e: Event)
    requires Inv(p, d) && Alive(d) && Next(p, d, e).Some? && Recorded(d, e).Some?
    ensures var t := d.ram.value.tracker;
            var st := Recorded(d, e).value;
            && Legal(t, st)
            && (Lookup(t, st.requestId).None? ==> e.OnCommand? && e.cmd.requestId == st.requestId)
            && (Lookup(t, st.requestId).Some? ==> Forward(Lookup(t, st.requestId).value, st))
  {
    var r := d.ram.value;
    var st := Recorded(d, e).value;
    if e.OnCommand? {
      CommandIsLegal(r, e.cmd, e.valid, EnvOf(r, e.flags));
    } else {
      RecordingIsFurtherOn(p, d, e);
      UpdateIsLegal(r, st);
    }
  }

  lemma CommandIsLegal(r: Ram, cmd: Command, valid: bool, env: Env)
    requires OneUpdate(r) && !Decide(r.tracker, cmd, valid, env).Replay?
    ensures Lookup(r.tracker, cmd.requestId).None? && Legal(r.tracker, Handle(r.tracker, cmd, valid, env).answer)
  {
  }

  /**
   Step by step within one boot: the record keeps distinct ids, at most OTA_TRACKER_SIZE of them and at
   most one in flight; the request in flight is never forgotten; and what is said of a request only
   moves forward, and not at all once it has ended.
   */
  lemma RecordStaysSound(p: Platform, d: Device, e: Event, x: RequestId)
    requires Inv(p, d) && Alive(d) && Regular(e) && Next(p, d, e).Some? && Next(p, d, e).value.ram.Some?
    ensures var t, t' := d.ram.value.tracker, Next(p, d, e).value.ram.value.tracker;
            && WellFormed(t') && AtMostOneActive(t')
            && (Lookup(t, x).Some? && IsActive(Lookup(t, x).value.state) ==> Lookup(t', x).Some?)
            && (Lookup(t, x).Some? && Lookup(t', x).Some? ==> Forward(Lookup(t, x).value, Lookup(t', x).value))
  {
    StepKeeps(p, d, e);
    OneActive(d.ram.value);
    OneActive(Next(p, d, e).value.ram.value);
    StepRecords(p, d, e);
    if Recorded(d, e).Some? {
      RecordingIsLegal(p, d, e);
      UpdateByRequest(d.ram.value.tracker, Recorded(d, e).value, x);
    }
  }

  // ---------------------------------------------------------------- redelivered commands

  /** The requests that commands bring into the record during the run. */
  function NewRequests(p: Platform, d: Device, es: seq<Event>): set<RequestId>
    decreases |es|
  {
    if es == [] || !Alive(d) || Next(p, d, es[0]).None? then {}
    else (if es[0].OnCommand? && Lookup(d.ram.value.tracker, es[0].cmd.requestId).None? then {es[0].cmd.requestId} else {})
         + NewRequests(p, Next(p, d, es[0]).value, es[1..])
  }

  /** Nothing in `es` turns the device off or on. */
  predicate StaysOn(p: Platform, d: Device, es: seq<Event>)
    decreases |es|
  {
    Alive(d) && (es == [] || (!es[0].Boot? && Next(p, d, es[0]).Some? && StaysOn(p, Next(p, d, es[0]).value, es[1..])))
  }

  /** Entry `i` of the record has at most the requests of `newer` after it. */
  predicate NewerOnly(d: Device, i: nat, newer: set<RequestId>)
    requires Alive(d)
  {
    i < |d.ram.value.tracker| && IdsAfter(d.ram.value.tracker, i) <= newer
  }

  lemma RememberedInAStep(p: Platform, d: Device, e: Event, d': Device, i: nat, newer: set<RequestId>) returns (j: nat)
    requires Inv(p, d) && Alive(d) && Regular(e) && Next(p, d, e) == Some(d') && d'.ram.Some?
    requires NewerOnly(d, i, newer) && |newer| <= OTA_TRACKER_SIZE - 2
    requires e.OnCommand? && Lookup(d.ram.value.tracker, e.cmd.requestId).None? ==> e.cmd.requestId in newer
    ensures Inv(p, d') && Alive(d') && NewerOnly(d', j, newer)
    ensures d'.ram.value.tracker[j].requestId == d.ram.value.tracker[i].requestId
    ensures Forward(d.ram.value.tracker[i], d'.ram.value.tracker[j])
  {
    var t, t' := d.ram.value.tracker, d'.ram.value.tracker;
    LookupIsTheEntry(t, i);
    StepKeeps(p, d, e);
    StepRecords(p, d, e);
    RecordStaysSound(p, d, e, t[i].requestId);
    OneActive(d.ram.value);
    if Recorded(d, e).Some? {
      RecordingIsLegal(p, d, e);
      NewerAfterUpdate(t, i, Recorded(d, e).value, newer);
    }
    j := IndexOf(t', t[i].requestId);
  }

  lemma {:induction false} RememberedDuring(p: Platform, d: Device, es: seq<Event>, i: nat, newer: set<RequestId>)
    requires Inv(p, d) && StaysOn(p, d, es) && AllRegular(es) && Run(p, d, es).Some?
    requires NewerOnly(d, i, newer) && NewRequests(p, d, es) <= newer && |newer| <= OTA_TRACKER_SIZE - 2
    ensures var d' := Run(p, d, es).value;
            var x := d.ram.value.tracker[i].requestId;
            && Alive(d') && Inv(p, d')
            && Lookup(d'.ram.value.tracker, x).Some?
            && Forward(d.ram.value.tracker[i], Lookup(d'.ram.value.tracker, x).value)
    decreases |es|
  {
    var t := d.ram.value.tracker;
    LookupIsTheEntry(t, i);
    if es != [] {
      var d1 := Next(p, d, es[0]).value;
      var j := RememberedInAStep(p, d, es[0], d1, i, newer);
      RememberedDuring(p, d1, es[1..], j, newer);
      ForwardIsTransitive(t[i], d1.ram.value.tracker[j], Lookup(Run(p, d, es).value.ram.value.tracker, t[i].requestId).value);
    }
  }

  /** The newest entry of the record of `d` is the one of `id`. */
  predicate IsNewest(d: Device, id: RequestId) {
    && Alive(d)
    && var t := d.ram.value.tracker;
    && t != [] && IdsAfter(t, |t| - 1) == {}
    && t[|t| - 1].requestId == id && Lookup(t, id) == Some(t[|t| - 1])
  }

  lemma CommandEntersTheRecord(p: Platform, d: Device, cmd: Command, valid: bool, flags: Flags, d1: Device)
    requires Inv(p, d) && Alive(d) && Lookup(d.ram.value.tracker, cmd.requestId).None?
    requires CommandStep(d, cmd, valid, flags) == Some(d1) && Regular(OnCommand(cmd, valid, flags))
    ensures Inv(p, d1) && IsNewest(d1, cmd.requestId)
    ensures d1.ram.value.tracker[|d1.ram.value.tracker| - 1] == Answer(d, cmd, valid, flags)
  {
    CommandKeeps(p, d, cmd, valid, flags);
    NewCommandIsNewest(d.ram.value, cmd, valid, EnvOf(d.ram.value, flags));
  }

  lemma NewCommandIsNewest(r: Ram, cmd: Command, valid: bool, env: Env)
    requires WellFormed(r.tracker) && Lookup(r.tracker, cmd.requestId).None?
    ensures var t := Handle(r.tracker, cmd, valid, env).tracker;
            && t != [] && IdsAfter(t, |t| - 1) == {}
            && t[|t| - 1].requestId == cmd.requestId && Lookup(t, cmd.requestId) == Some(t[|t| - 1])
            && t[|t| - 1] == Handle(r.tracker, cmd, valid, env).answer
  {
    NewestEntry(r.tracker, Handle(r.tracker, cmd, valid, env).answer);
  }

  lemma ReplayChangesNothing(d: Device, cmd: Command, valid: bool, flags: Flags)
    requires Alive(d) && Lookup(d.ram.value.tracker, cmd.requestId).Some?
    ensures CommandStep(d, cmd, valid, flags) == Some(d)
    ensures Answer(d, cmd, valid, flags) == Lookup(d.ram.value.tracker, cmd.requestId).value
  {
    var r := d.ram.value;
    assert r.(tracker := r.tracker, updates := r.updates) == r;
  }

  /** `cmd` changes nothing in `d` and is answered with a status that follows `was`, or with `was` itself. */
  predicate OnlyAnswers(d: Device, cmd: Command, valid: bool, flags: Flags, was: Status) {
    && Alive(d) && CommandStep(d, cmd, valid, flags) == Some(d)
    && Lookup(d.ram.value.tracker, cmd.requestId) == Some(Answer(d, cmd, valid, flags))
    && Forward(was, Answer(d, cmd, valid, flags))
  }

  lemma KnownIsReplayed(p: Platform, d: Device, es: seq<Event>, now: Device, i: nat, again: Command, valid: bool, flags: Flags)
    requires Inv(p, d) && StaysOn(p, d, es) && AllRegular(es) && Run(p, d, es) == Some(now)
    requires NewerOnly(d, i, {}) && |NewRequests(p, d, es)| <= OTA_TRACKER_SIZE - 2
    requires d.ram.value.tracker[i].requestId == again.requestId
    ensures OnlyAnswers(now, again, valid, flags, d.ram.value.tracker[i])
  {
    RememberedDuring(p, d, es, i, NewRequests(p, d, es));
    ReplayChangesNothing(now, again, valid, flags);
  }

  /**
   A command starts at most one update. Once it was handled, and until the next boot, a redelivery of it
   changes nothing at all and is answered with the state the request has reached since, as long as
   commands brought at most OTA_TRACKER_SIZE - 2 other new requests in between.
   */
  lemma RedeliveredCommandChangesNothing(p: Platform, d: Device, cmd: Command, valid: bool, flags: Flags, d1: Device,
                                         es: seq<Event>, now: Device, again: Command, validAgain: bool, flagsAgain: Flags)
    requires Inv(p, d) && Alive(d) && Lookup(d.ram.value.tracker, cmd.requestId).None?
    requires CommandStep(d, cmd, valid, flags) == Some(d1) && Regular(OnCommand(cmd, valid, flags))
    requires AllRegular(es) && StaysOn(p, d1, es) && Run(p, d1, es) == Some(now)
    requires |NewRequests(p, d1, es)| <= OTA_TRACKER_SIZE - 2
    requires again.requestId == cmd.requestId
    ensures OnlyAnswers(now, again, validAgain, flagsAgain, Answer(d, cmd, valid, flags))
  {
    CommandEntersTheRecord(p, d, cmd, valid, flags, d1);
    KnownIsReplayed(p, d1, es, now, |d1.ram.value.tracker| - 1, again, validAgain, flagsAgain);
  }

  /** The record of `d` holds the final report of the request `id` and nothing else. */
  predicate HasReport(d: Device, id: RequestId) {
    && Alive(d) && NewerOnly(d, 0, {})
    && var final := d.ram.value.report.final;
    && final.Some? && d.ram.value.tracker == [final.value]
    && final.value.requestId == id && Rank(final.value.state) == 5
  }

  lemma BootRecordsTheReport(p: Platform, d: Device, first: Device)
    requires Inv(p, d) && d.marker.Some? && BootStep(p, d, true) == Some(first)
    ensures Inv(p, first) && HasReport(first, d.marker.value.requestId)
  {
    StepKeeps(p, d, Boot(true));
    BootIsTruthful(p, d);
  }

  lemma OutcomeIsReplayed(p: Platform, d: Device, es: seq<Event>, now: Device, again: Command, valid: bool, flags: Flags)
    requires Inv(p, d) && HasReport(d, again.requestId)
    requires AllRegular(es) && StaysOn(p, d, es) && Run(p, d, es) == Some(now)
    requires |NewRequests(p, d, es)| <= OTA_TRACKER_SIZE - 2
    ensures OnlyAnswers(now, again, valid, flags, d.ram.value.report.final.value)
    ensures Answer(now, again, valid, flags) == d.ram.value.report.final.value
  {
    KnownIsReplayed(p, d, es, now, 0, again, valid, flags);
    OutcomesStay(d.ram.value.report.final.value, Answer(now, again, valid, flags));
  }

  lemma OutcomesStay(a: Status, b: Status)
    requires Forward(a, b) && Rank(a.state) == 5
    ensures a == b
  {
  }

  /**
   The boot that reports an update records its final status, so that a redelivery of the command that
   ordered it runs nothing and is answered with that very status.
   */
  lemma ReportedCommandIsReplayed(p: Platform, d0: Device, first: Device, es: seq<Event>, now: Device,
                                  again: Command, valid: bool, flags: Flags)
    requires Inv(p, d0) && BootStep(p, d0, true) == Some(first)
    requires d0.marker.Some? && again.requestId == d0.marker.value.requestId
    requires AllRegular(es) && StaysOn(p, first, es) && Run(p, first, es) == Some(now)
    requires |NewRequests(p, first, es)| <= OTA_TRACKER_SIZE - 2
    ensures HasReport(first, again.requestId)
    ensures OnlyAnswers(now, again, valid, flags, first.ram.value.report.final.value)
    ensures Answer(now, again, valid, flags) == first.ram.value.report.final.value
  {
    BootRecordsTheReport(p, d0, first);
    OutcomeIsReplayed(p, first, es, now, again, valid, flags);
  }
}
