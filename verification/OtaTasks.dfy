/** The tasks of ota_manager.c as runs of the device: the download and the validation of a new image. */
module OtaTasks {
  import opened Wrappers
  import opened OtaTypes
  import opened OtaTracker
  import opened OtaBoot
  import opened OtaProgress
  import opened OtaDevice
  import opened OtaInvariant
  import opened OtaScenario
  import D = OtaDownload

  // ---------------------------------------------------------------- the events of a download

  /** The mark of the progress rules after `n` passes. */
  function MarkOf(cmd: Command, w: D.World, n: nat): Mark {
    MarkAfter(Mark(0, w.startMs), D.SamplesOf(cmd, w, n))
  }

  function PercentOf(cmd: Command, w: D.World, n: nat): nat {
    var pct := Percent(|D.Received(w, n)|, cmd.size);
    if pct < 0 then 0 else pct
  }

  /** Pass `k` writes its chunk, with `rest` after it, and reports the percentage when it is due. */
  function PassEvents(cmd: Command, w: D.World, k: nat, rest: seq<byte>): seq<Event>
    requires w.read(k).Chunk?
  {
    var pct := PercentOf(cmd, w, k + 1);
    [WriteChunk(0, w.read(k).bytes, rest)]
    + if Due(MarkOf(cmd, w, k), pct, w.clockMs(k)) then [ReportProgress(0, pct)] else []
  }

  predicate Reads(w: D.World, n: nat) {
    forall k :: 0 <= k < n ==> w.read(k).Chunk?
  }

  predicate AllGood(cmd: Command, w: D.World, n: nat) {
    forall k :: 0 <= k < n ==> D.GoodPass(cmd, w, k)
  }

  lemma GoodPassesRead(cmd: Command, w: D.World, n: nat)
    requires AllGood(cmd, w, n)
    ensures Reads(w, n) && |D.Received(w, n)| <= cmd.size
  {
    forall k | 0 <= k < n
      ensures w.read(k).Chunk?
    {
      assert D.GoodPass(cmd, w, k);
    }
    if n > 0 {
      assert D.GoodPass(cmd, w, n - 1);
    }
  }

  /** The first `n` passes; `rest` is what the slot holds after the last chunk. */
  function PassesEvents(cmd: Command, w: D.World, n: nat, rest: seq<byte>): seq<Event>
    requires Reads(w, n)
  {
    if n == 0 then [] else PassesEvents(cmd, w, n - 1, []) + PassEvents(cmd, w, n - 1, rest)
  }

  /** All of download_and_flash: `passes` passes, and the result. */
  function DownloadEvents(cmd: Command, w: D.World, passes: nat, rest: seq<byte>, result: OtaError): seq<Event>
    requires Reads(w, passes)
  {
    (if D.Connects(cmd, w) then [BeginFlash(0)] + PassesEvents(cmd, w, passes, rest) else [])
    + if result == NoError then [EndOfData(0), CheckImage(0)] else [DownloadFails(0, result)]
  }

  /** The percentages that `es` reports. */
  function ReportsOf(es: seq<Event>): seq<int> {
    if es == [] then [] else (if es[0].ReportProgress? then [es[0].percent as int] else []) + ReportsOf(es[1..])
  }

  lemma FirstOfBoth(es: seq<Event>, fs: seq<Event>)
    requires es != []
    ensures es + fs != [] && (es + fs)[0] == es[0] && (es + fs)[1..] == es[1..] + fs
  {
  }

  lemma {:induction false} ReportsTogether(es: seq<Event>, fs: seq<Event>)
    ensures ReportsOf(es + fs) == ReportsOf(es) + ReportsOf(fs)
    decreases |es|
  {
    if es == [] {
      assert es + fs == fs;
    } else {
      FirstOfBoth(es, fs);
      ReportsTogether(es[1..], fs);
    }
  }

  lemma ReportsOfOne(e: Event)
    ensures ReportsOf([e]) == if e.ReportProgress? then [e.percent as int] else []
  {
    assert [e][1..] == [];
  }

  lemma MarkMoves(cmd: Command, w: D.World, k: nat)
    requires D.GoodPass(cmd, w, k)
    ensures PercentOf(cmd, w, k + 1) == Percent(|D.Received(w, k + 1)|, cmd.size) <= 100
    ensures MarkOf(cmd, w, k + 1) == AfterSample(MarkOf(cmd, w, k), PercentOf(cmd, w, k + 1), w.clockMs(k))
  {
    PercentIsTheShare(|D.Received(w, k + 1)|, cmd.size);
    OneMoreSample(Mark(0, w.startMs), D.SamplesOf(cmd, w, k), (PercentOf(cmd, w, k + 1), w.clockMs(k)));
  }

  lemma ReportsOfAPass(cmd: Command, w: D.World, k: nat, rest: seq<byte>)
    requires D.GoodPass(cmd, w, k)
    ensures var pct := Percent(|D.Received(w, k + 1)|, cmd.size);
            ReportsOf(PassEvents(cmd, w, k, rest)) == if Due(MarkOf(cmd, w, k), pct, w.clockMs(k)) then [pct] else []
  {
    var pct := PercentOf(cmd, w, k + 1);
    MarkMoves(cmd, w, k);
    ReportsOfOne(WriteChunk(0, w.read(k).bytes, rest));
    ReportsOfOne(ReportProgress(0, pct));
    ReportsTogether([WriteChunk(0, w.read(k).bytes, rest)],
                    if Due(MarkOf(cmd, w, k), pct, w.clockMs(k)) then [ReportProgress(0, pct)] else []);
  }

  /** The progress events are the reports of the download. */
  lemma {:induction false} ReportsOfThePasses(cmd: Command, w: D.World, n: nat, rest: seq<byte>)
    requires AllGood(cmd, w, n)
    ensures Reads(w, n) && ReportsOf(PassesEvents(cmd, w, n, rest)) == Published(Mark(0, w.startMs), D.SamplesOf(cmd, w, n))
    decreases n
  {
    GoodPassesRead(cmd, w, n);
    if n > 0 {
      ReportsOfThePasses(cmd, w, n - 1, []);
      ReportsOfAPass(cmd, w, n - 1, rest);
      ReportsTogether(PassesEvents(cmd, w, n - 1, []), PassEvents(cmd, w, n - 1, rest));
      OneMoreSample(Mark(0, w.startMs), D.SamplesOf(cmd, w, n - 1),
                    (Percent(|D.Received(w, n)|, cmd.size), w.clockMs(n - 1)));
    }
  }

  // ---------------------------------------------------------------- the run of a download

  /** `d` is `from` with `flash` in the slot that does not run, and with another record. */
  predicate Beside(from: Device, d: Device, flash: seq<byte>) {
    && Alive(from) && Alive(d) && d.boot == from.boot && d.marker == from.marker
    && d.ram.value.running == from.ram.value.running
    && var o := Other(from.ram.value.running);
    d.slots == from.slots[o := from.slots[o].(flash := flash)]
  }

  /** The one update has received `received` and reported `pct`. */
  predicate Writes(p: Platform, from: Device, d: Device, cmd: Command, received: seq<byte>, pct: int, flash: seq<byte>) {
    && Inv(p, d) && Beside(from, d, flash)
    && d.ram.value.updates == [Update(cmd, Writing(received))]
    && var last := Lookup(d.ram.value.tracker, cmd.requestId);
    last.Some? && last.value.progress == pct
  }

  predicate Prepared(p: Platform, d: Device, cmd: Command) {
    Inv(p, d) && Alive(d) && d.ram.value.updates == [Update(cmd, Preparing)]
  }

  lemma BeginsToWrite(p: Platform, d: Device, cmd: Command) returns (b: Device)
    requires Prepared(p, d, cmd)
    ensures BeginFlashStep(d, 0) == Some(b)
    ensures Writes(p, d, b, cmd, [], 0, d.slots[Other(d.ram.value.running)].flash)
  {
    b := BeginFlashStep(d, 0).value;
    BeginFlashKeeps(p, d, 0);
    OneActive(d.ram.value);
    UpdateByRequest(d.ram.value.tracker, RunStatus(cmd, Downloading, 0), cmd.requestId);
  }

  lemma WritesAChunk(p: Platform, from: Device, d: Device, cmd: Command, received: seq<byte>, pct: int, flash: seq<byte>,
                     chunk: seq<byte>, rest: seq<byte>) returns (b: Device)
    requires Writes(p, from, d, cmd, received, pct, flash) && chunk != []
    requires |received| + |chunk| <= cmd.size && |received| + |chunk| + |rest| <= OTA_SLOT_SIZE
    ensures WriteStep(d, 0, chunk, rest) == Some(b)
    ensures Writes(p, from, b, cmd, received + chunk, pct, received + chunk + rest)
  {
    b := WriteStep(d, 0, chunk, rest).value;
    WriteKeeps(p, d, 0, chunk, rest);
  }

  lemma ReportsAPercentage(p: Platform, from: Device, d: Device, cmd: Command, received: seq<byte>, pct: int,
                           flash: seq<byte>, percent: nat) returns (b: Device)
    requires Writes(p, from, d, cmd, received, pct, flash) && pct < percent <= 100
    ensures ProgressStep(d, 0, percent) == Some(b)
    ensures Writes(p, from, b, cmd, received, percent, flash)
  {
    b := ProgressStep(d, 0, percent).value;
    ProgressKeeps(p, d, 0, percent);
    OneActive(d.ram.value);
    UpdateByRequest(d.ram.value.tracker, RunStatus(cmd, Downloading, percent), cmd.requestId);
  }

  lemma PassRuns(p: Platform, from: Device, d: Device, cmd: Command, received: seq<byte>, flash: seq<byte>,
                 chunk: seq<byte>, rest: seq<byte>, m: Mark, pct: nat, now: int)
    returns (b: Device)
    requires Writes(p, from, d, cmd, received, m.pct, flash) && chunk != [] && pct <= 100
    requires |received| + |chunk| <= cmd.size && |received| + |chunk| + |rest| <= OTA_SLOT_SIZE
    ensures Run(p, d, [WriteChunk(0, chunk, rest)] + if Due(m, pct, now) then [ReportProgress(0, pct)] else []) == Some(b)
    ensures Writes(p, from, b, cmd, received + chunk, AfterSample(m, pct, now).pct, received + chunk + rest)
  {
    var a := WritesAChunk(p, from, d, cmd, received, m.pct, flash, chunk, rest);
    OneStep(p, d, a, WriteChunk(0, chunk, rest));
    b := a;
    if Due(m, pct, now) {
      b := ReportsAPercentage(p, from, a, cmd, received + chunk, m.pct, received + chunk + rest, pct);
      OneStep(p, a, b, ReportProgress(0, pct));
      RunsTogether(p, d, a, b, [WriteChunk(0, chunk, rest)], [ReportProgress(0, pct)]);
    } else {
      assert [WriteChunk(0, chunk, rest)] + [] == [WriteChunk(0, chunk, rest)];
    }
  }

  lemma OnePassRuns(p: Platform, from: Device, d: Device, cmd: Command, w: D.World, k: nat, n: nat, flash: seq<byte>,
                    rest: seq<byte>)
    returns (b: Device)
    requires n == k + 1 && D.GoodPass(cmd, w, k) && |D.Received(w, n)| + |rest| <= OTA_SLOT_SIZE
    requires Writes(p, from, d, cmd, D.Received(w, k), MarkOf(cmd, w, k).pct, flash)
    ensures Run(p, d, PassEvents(cmd, w, k, rest)) == Some(b)
    ensures Writes(p, from, b, cmd, D.Received(w, n), MarkOf(cmd, w, n).pct, D.Received(w, n) + rest)
  {
    MarkMoves(cmd, w, k);
    b := PassRuns(p, from, d, cmd, D.Received(w, k), flash, w.read(k).bytes, rest,
                  MarkOf(cmd, w, k), PercentOf(cmd, w, n), w.clockMs(k));
  }

  function FlashAfter(w: D.World, n: nat, rest: seq<byte>, flash: seq<byte>): seq<byte> {
    if n == 0 then flash else D.Received(w, n) + rest
  }

  lemma OnePassMoreEvents(cmd: Command, w: D.World, k: nat, n: nat, rest: seq<byte>)
    requires n == k + 1 && Reads(w, k) && w.read(k).Chunk?
    ensures Reads(w, n) && PassesEvents(cmd, w, n, rest) == PassesEvents(cmd, w, k, []) + PassEvents(cmd, w, k, rest)
  {
  }

  lemma {:induction false} PassesRun(p: Platform, d0: Device, d: Device, cmd: Command, w: D.World, n: nat, rest: seq<byte>,
                                     flash: seq<byte>)
    returns (b: Device)
    requires Writes(p, d0, d, cmd, [], 0, flash) && cmd.size <= OTA_SLOT_SIZE
    requires AllGood(cmd, w, n) && |D.Received(w, n)| + |rest| <= OTA_SLOT_SIZE
    ensures Reads(w, n) && Run(p, d, PassesEvents(cmd, w, n, rest)) == Some(b)
    ensures Writes(p, d0, b, cmd, D.Received(w, n), MarkOf(cmd, w, n).pct, FlashAfter(w, n, rest, flash))
    decreases n
  {
    if n == 0 {
      return d;
    }
    var k: nat := n - 1;
    GoodPassesRead(cmd, w, k);
    var a := PassesRun(p, d0, d, cmd, w, k, [], flash);
    b := OnePassRuns(p, d0, a, cmd, w, k, n, FlashAfter(w, k, [], flash), rest);
    OnePassMoreEvents(cmd, w, k, n, rest);
    RunsTogether(p, d, a, b, PassesEvents(cmd, w, k, []), PassEvents(cmd, w, k, rest));
  }

  // ---------------------------------------------------------------- the end of a download

  /** The update failed with `error` and is over; the slot holds `flash`. */
  predicate FailedWith(from: Device, d: Device, cmd: Command, error: OtaError, flash: seq<byte>) {
    && Beside(from, d, flash) && d.ram.value.updates == []
    && Lookup(d.ram.value.tracker, cmd.requestId) == Some(Status(cmd.requestId, cmd.version, Failed, error, -1))
  }

  /** The slot holds `flash`, which passed the checks of the command. */
  predicate PassedChecks(from: Device, d: Device, cmd: Command, flash: seq<byte>) {
    && Alive(from) && Alive(d) && d.ram.value.updates == [Update(cmd, Checked)]
    && var o := Other(from.ram.value.running);
    && d.slots == from.slots[o := from.slots[o].(flash := flash, vouch := Passed(flash, cmd.size, cmd.sha256))]
    && d.boot == from.boot && d.marker == from.marker
  }

  lemma FailsAt(p: Platform, from: Device, d: Device, cmd: Command, flash: seq<byte>, error: OtaError) returns (b: Device)
    requires Inv(p, d) && Beside(from, d, flash) && |d.ram.value.updates| == 1 && d.ram.value.updates[0].cmd == cmd
    requires d.ram.value.updates[0].stage.Preparing? || d.ram.value.updates[0].stage.Writing?
    ensures Run(p, d, [DownloadFails(0, error)]) == Some(b) && FailedWith(from, b, cmd, error, flash)
  {
    b := DownloadFailsStep(d, 0, error).value;
    OneStep(p, d, b, DownloadFails(0, error));
    OneActive(d.ram.value);
    UpdateByRequest(d.ram.value.tracker, Status(cmd.requestId, cmd.version, Failed, error, -1), cmd.requestId);
  }

  lemma PassesAt(p: Platform, from: Device, d: Device, cmd: Command, received: seq<byte>, pct: int, flash: seq<byte>)
    returns (b: Device)
    requires Writes(p, from, d, cmd, received, pct, flash)
    requires 0 < |received| == cmd.size && p.sha256Hex(received) == cmd.sha256 && p.imageOk(flash)
    ensures Run(p, d, [EndOfData(0), CheckImage(0)]) == Some(b) && PassedChecks(from, b, cmd, flash)
  {
    var a := EndOfDataStep(d, 0).value;
    b := CheckStep(p, a, 0).value;
    OneStep(p, d, a, EndOfData(0));
    OneStep(p, a, b, CheckImage(0));
    RunsTogether(p, d, a, b, [EndOfData(0)], [CheckImage(0)]);
  }

  /** The hash of the download is the SHA-256 of the platform. */
  ghost predicate SameSha(p: Platform, w: D.World) {
    forall bytes :: D.Spells(p.sha256Hex(bytes), w.sha256(bytes))
  }

  /** What became of the update: checked with `flash` in its slot, or failed with `result`. */
  predicate EndsWith(from: Device, d: Device, cmd: Command, result: OtaError, flash: seq<byte>) {
    if result == NoError then PassedChecks(from, d, cmd, flash) else FailedWith(from, d, cmd, result, flash)
  }

  lemma UnconnectedRuns(p: Platform, d: Device, cmd: Command, w: D.World, rest: seq<byte>, result: OtaError) returns (b: Device)
    requires Prepared(p, d, cmd) && !D.Connects(cmd, w) && result != NoError
    ensures Run(p, d, DownloadEvents(cmd, w, 0, rest, result)) == Some(b)
    ensures EndsWith(d, b, cmd, result, d.slots[Other(d.ram.value.running)].flash)
  {
    b := FailsAt(p, d, d, cmd, d.slots[Other(d.ram.value.running)].flash, result);
    assert [] + [DownloadFails(0, result)] == [DownloadFails(0, result)];
  }

  lemma ConnectedRuns(p: Platform, d: Device, cmd: Command, w: D.World, passes: nat, rest: seq<byte>, result: OtaError,
                      flash: seq<byte>)
    returns (b: Device)
    requires Prepared(p, d, cmd) && D.Connects(cmd, w) && AllGood(cmd, w, passes)
    requires |D.Received(w, passes)| + |rest| <= OTA_SLOT_SIZE
    requires flash == FlashAfter(w, passes, rest, d.slots[Other(d.ram.value.running)].flash)
    requires result == NoError ==> 0 < cmd.size && D.Delivers(cmd, w, passes) && SameSha(p, w) && p.imageOk(flash)
    ensures Reads(w, passes) && Run(p, d, DownloadEvents(cmd, w, passes, rest, result)) == Some(b)
    ensures EndsWith(d, b, cmd, result, flash)
  {
    var begun := BeginsToWrite(p, d, cmd);
    OneStep(p, d, begun, BeginFlash(0));
    var written := PassesRun(p, d, begun, cmd, w, passes, rest, d.slots[Other(d.ram.value.running)].flash);
    var passed := PassesEvents(cmd, w, passes, rest);
    RunsTogether(p, d, begun, written, [BeginFlash(0)], passed);
    if result == NoError {
      var received := D.Received(w, passes);
      D.SpellingIsUnique(p.sha256Hex(received), cmd.sha256, w.sha256(received));
      b := PassesAt(p, d, written, cmd, D.Received(w, passes), MarkOf(cmd, w, passes).pct, flash);
      RunsTogether(p, d, written, b, [BeginFlash(0)] + passed, [EndOfData(0), CheckImage(0)]);
    } else {
      b := FailsAt(p, d, written, cmd, flash, result);
      RunsTogether(p, d, written, b, [BeginFlash(0)] + passed, [DownloadFails(0, result)]);
    }
  }

  lemma ReportsOfTheDownload(cmd: Command, w: D.World, passes: nat, rest: seq<byte>, result: OtaError)
    requires AllGood(cmd, w, passes) && (D.Connects(cmd, w) || passes == 0)
    ensures Reads(w, passes)
    ensures ReportsOf(DownloadEvents(cmd, w, passes, rest, result))
            == Published(Mark(0, w.startMs), D.SamplesOf(cmd, w, passes))
  {
    ReportsOfThePasses(cmd, w, passes, rest);
    var passed := PassesEvents(cmd, w, passes, rest);
    var end := if result == NoError then [EndOfData(0), CheckImage(0)] else [DownloadFails(0, result)];
    NoReportsAtTheEnd(result);
    if D.Connects(cmd, w) {
      ReportsOfOne(BeginFlash(0));
      ReportsTogether([BeginFlash(0)], passed);
      ReportsTogether([BeginFlash(0)] + passed, end);
    } else {
      ReportsTogether([], end);
    }
  }

  lemma NoReportsAtTheEnd(result: OtaError)
    ensures ReportsOf(if result == NoError then [EndOfData(0), CheckImage(0)] else [DownloadFails(0, result)]) == []
  {
    ReportsOfOne(EndOfData(0));
    ReportsOfOne(CheckImage(0));
    ReportsOfOne(DownloadFails(0, result));
    ReportsTogether([EndOfData(0)], [CheckImage(0)]);
  }

  lemma FlashSplits(w: D.World, passes: nat, before: seq<byte>, after: seq<byte>)
    requires |before| == |after| && D.Received(w, passes) <= after
    requires after[|D.Received(w, passes)|..] == before[|D.Received(w, passes)|..]
    ensures after == FlashAfter(w, passes, after[|D.Received(w, passes)|..], before)
  {
    var n := |D.Received(w, passes)|;
    assert after == after[..n] + after[n..] && before == before[..n] + before[n..];
  }

  lemma DownloadRuns(p: Platform, d: Device, cmd: Command, w: D.World, passes: nat, rest: seq<byte>, result: OtaError,
                     flash: seq<byte>)
    returns (b: Device)
    requires Prepared(p, d, cmd) && AllGood(cmd, w, passes) && |D.Received(w, passes)| + |rest| <= OTA_SLOT_SIZE
    requires flash == FlashAfter(w, passes, rest, d.slots[Other(d.ram.value.running)].flash)
    requires !D.Connects(cmd, w) ==> passes == 0
    requires result == NoError ==> 0 < cmd.size && D.Delivers(cmd, w, passes) && SameSha(p, w)
    ensures Reads(w, passes)
    ensures result != NoError || p.imageOk(flash) ==>
              Run(p, d, DownloadEvents(cmd, w, passes, rest, result)) == Some(b) && EndsWith(d, b, cmd, result, flash)
  {
    GoodPassesRead(cmd, w, passes);
    b := d;
    if !D.Connects(cmd, w) {
      b := UnconnectedRuns(p, d, cmd, w, rest, result);
    } else if result != NoError || p.imageOk(flash) {
      b := ConnectedRuns(p, d, cmd, w, passes, rest, result, flash);
    }
  }

  /**
   download_and_flash on the device `d`, whose other slot is `flash`: whatever it meets, what it does is the
   run `es` of the device, from the start of the flashing to the checks that pass or to the failure with the
   very error it returns, with its reports in the record and its bytes in the slot. esp_ota_end is taken to
   pass only what the platform takes for a complete image.
   */
  method Download(ghost p: Platform, ghost d: Device, cmd: Command, w: D.World, flash: array<byte>, ledger: D.Ledger)
    returns (result: OtaError, reports: seq<int>, ghost es: seq<Event>, ghost b: Device)
    requires Prepared(p, d, cmd) && 0 < cmd.size && SameSha(p, w)
    requires flash.Length == OTA_SLOT_SIZE && flash[..] == d.slots[Other(d.ram.value.running)].flash
    modifies flash, ledger
    ensures ledger.Held() == old(ledger.Held())
    ensures result == NoError <==> exists n :: D.Delivers(cmd, w, n)
    ensures result != NoError || p.imageOk(flash[..]) ==>
              Run(p, d, es) == Some(b) && EndsWith(d, b, cmd, result, flash[..]) && ReportsOf(es) == reports
  {
    ghost var before := flash[..];
    ghost var passes;
    result, reports, passes := D.DownloadAndFlash(cmd, w, flash, ledger);
    ghost var after := flash[..];
    ghost var rest := after[|D.Received(w, passes)|..];
    FlashSplits(w, passes, before, after);
    ReportsOfTheDownload(cmd, w, passes, rest, result);
    b := DownloadRuns(p, d, cmd, w, passes, rest, result, after);
    es := DownloadEvents(cmd, w, passes, rest, result);
  }

  // ---------------------------------------------------------------- the validation of a new image

  /**
   validate_task on the device `d` that runs a new image: `ok` is what ESP-IDF makes of the verdict. The image
   stays exactly when some round within the timeout sees both connections; otherwise the other one is next.
   */
  method ValidateImage(ghost p: Platform, ghost d: Device, polls: nat -> Poll, ghost ok: bool)
    returns (verdict: Verdict, ghost b: Device)
    requires Inv(p, d) && Alive(d) && d.ram.value.validation.Waiting? && OtaBoot.ClockRuns(polls)
    ensures Next(p, d, if verdict == MarkValid then MarkAppValid(ok) else RollBackNow(ok)) == Some(b)
    ensures verdict == MarkValid <==> exists k: nat :: InTime(polls(k))
    ensures ok && verdict == MarkValid ==> b.boot == d.ram.value.running && b.slots[b.boot].img == Valid
    ensures ok && verdict != MarkValid ==>
              b.ram.None? && b.boot == Other(d.ram.value.running) && b.slots[Other(b.boot)].img == Invalid
    ensures !ok ==> b.boot == d.boot && b.slots == d.slots
  {
    var round;
    verdict, round := Validate(polls);
    b := Next(p, d, if verdict == MarkValid then MarkAppValid(ok) else RollBackNow(ok)).value;
  }
}
