/** How often a download reports its progress (ota_percent and ota_progress_* in ota_logic.c). */
module OtaProgress {
  import opened OtaTypes

  const OTA_PROGRESS_STEP_PCT := 10
  const OTA_PROGRESS_INTERVAL_MS := 5000

  function Percent(read: nat, total: UInt32): int {
    if total == 0 then 0 else if read >= total then 100 else read * 100 / total
  }

  lemma CompareQuotients(a: int, b: int, t: int)
    requires t > 0 && a * t < b * t
    ensures a < b
  {
    assert (b - a) * t > 0;
  }

  /** The share of the image in whole points, rounded down: 100 means that all of it was read. Of nothing it is 0. */
  lemma PercentIsTheShare(read: nat, total: UInt32)
    ensures total == 0 ==> Percent(read, total) == 0
    ensures 0 <= Percent(read, total) <= 100
    ensures total > 0 ==> (Percent(read, total) == 100 <==> read >= total)
    ensures total > 0 && read <= total ==> Percent(read, total) * total <= read * 100 < (Percent(read, total) + 1) * total
  {
    if 0 < total && read < total {
      var q := read * 100 / total;
      assert read * 100 == q * total + read * 100 % total;
      CompareQuotients(q, 100, total);
    }
  }

  lemma PercentIsMonotone(a: nat, b: nat, total: UInt32)
    requires a <= b
    ensures Percent(a, total) <= Percent(b, total)
  {
    if total > 0 {
      PercentIsTheShare(a, total);
      PercentIsTheShare(b, total);
      if b < total {
        CompareQuotients(Percent(a, total), Percent(b, total) + 1, total);
      }
    }
  }

  /** The last reported percentage and when it was reported. */
  datatype Mark = Mark(pct: int, ms: int)

  predicate Due(m: Mark, pct: int, now: int) {
    pct > m.pct && (pct >= m.pct + OTA_PROGRESS_STEP_PCT || now - m.ms >= OTA_PROGRESS_INTERVAL_MS)
  }

  function AfterSample(m: Mark, pct: int, now: int): Mark {
    if Due(m, pct, now) then Mark(pct, now) else m
  }

  class Progress {
    var lastPct: int
    var lastMs: int

    ghost function Last(): Mark
      reads this
    {
      Mark(lastPct, lastMs)
    }

    constructor (now: int)
      ensures Last() == Mark(0, now)
    {
      lastPct, lastMs := 0, now;
    }

    method ShouldPublish(pct: int, now: int) returns (publish: bool)
      modifies this
      ensures publish == Due(old(Last()), pct, now)
      ensures Last() == AfterSample(old(Last()), pct, now)
    {
      if pct <= lastPct {
        return false;
      }
      if pct >= lastPct + OTA_PROGRESS_STEP_PCT || now - lastMs >= OTA_PROGRESS_INTERVAL_MS {
        lastPct := pct;
        lastMs := now;
        return true;
      }
      return false;
    }
  }

  // ---------------------------------------------------------------- a whole download

  /** What a pass of the read loop shows: the percentage and the clock. */
  type Sample = (int, int)

  function MarkAfter(m: Mark, samples: seq<Sample>): Mark
    decreases |samples|
  {
    if samples == [] then m else MarkAfter(AfterSample(m, samples[0].0, samples[0].1), samples[1..])
  }

  function Published(m: Mark, samples: seq<Sample>): seq<int>
    decreases |samples|
  {
    if samples == [] then []
    else (if Due(m, samples[0].0, samples[0].1) then [samples[0].0] else [])
         + Published(AfterSample(m, samples[0].0, samples[0].1), samples[1..])
  }

  predicate Increasing(s: seq<int>, above: int) {
    (s != [] ==> above < s[0]) && forall i, j :: 0 <= i < j < |s| ==> s[i] < s[j]
  }

  predicate ClockRuns(start: int, samples: seq<Sample>) {
    && (samples != [] ==> start <= samples[0].1)
    && forall i, j :: 0 <= i < j < |samples| ==> samples[i].1 <= samples[j].1
  }

  lemma IncreasingFrom(x: int, s: seq<int>, above: int)
    requires above < x && Increasing(s, x)
    ensures Increasing([x] + s, above)
  {
    var u := [x] + s;
    assert forall i :: 1 <= i < |u| ==> u[i] == s[i - 1];
  }

  function LastOf(p: seq<int>, none: int): int {
    if p == [] then none else p[|p| - 1]
  }

  lemma LastOfPrepended(x: int, s: seq<int>, none: int)
    ensures LastOf([x] + s, none) == LastOf(s, x)
  {
  }

  /** What is reported goes up, and each report is the mark the next ones are measured against. */
  lemma {:induction false} ReportsGoUp(m: Mark, samples: seq<Sample>)
    ensures Increasing(Published(m, samples), m.pct)
    ensures MarkAfter(m, samples).pct == LastOf(Published(m, samples), m.pct)
    decreases |samples|
  {
    if samples != [] {
      var (pct, now) := samples[0];
      var rest := Published(AfterSample(m, pct, now), samples[1..]);
      ReportsGoUp(AfterSample(m, pct, now), samples[1..]);
      if Due(m, pct, now) {
        IncreasingFrom(pct, rest, m.pct);
        LastOfPrepended(pct, rest, m.pct);
      } else {
        assert [] + rest == rest;
      }
    }
  }

  lemma {:induction false} OneMoreSample(m: Mark, samples: seq<Sample>, s: Sample)
    ensures MarkAfter(m, samples + [s]) == AfterSample(MarkAfter(m, samples), s.0, s.1)
    ensures Published(m, samples + [s]) == Published(m, samples) + if Due(MarkAfter(m, samples), s.0, s.1) then [s.0] else []
    decreases |samples|
  {
    if samples == [] {
      assert [s][1..] == [];
      assert MarkAfter(m, [s]) == MarkAfter(AfterSample(m, s.0, s.1), []);
    } else {
      var next := AfterSample(m, samples[0].0, samples[0].1);
      OneMoreSample(next, samples[1..], s);
      assert (samples + [s])[1..] == samples[1..] + [s];
    }
  }

  /** A percentage is reported exactly when it grew by ten points, or grew at all and five seconds went by. */
  lemma ReportedExactly(m: Mark, pct: int, now: int)
    ensures var due := pct > m.pct && (pct - m.pct >= 10 || now - m.ms >= 5000);
            && Published(m, [(pct, now)]) == (if due then [pct] else [])
            && MarkAfter(m, [(pct, now)]) == if due then Mark(pct, now) else m
  {
    assert [(pct, now)][1..] == [];
    assert Published(AfterSample(m, pct, now), []) == [];
  }

  /** The last report is never ten points behind what was read last, nor behind at all for five seconds. */
  lemma {:induction false} ReportsKeepUp(m: Mark, samples: seq<Sample>)
    requires samples != []
    ensures samples[|samples| - 1].0 < MarkAfter(m, samples).pct + OTA_PROGRESS_STEP_PCT
    ensures samples[|samples| - 1].0 <= MarkAfter(m, samples).pct || samples[|samples| - 1].1 < MarkAfter(m, samples).ms + 5000
    decreases |samples|
  {
    var next := AfterSample(m, samples[0].0, samples[0].1);
    if |samples| == 1 {
      assert MarkAfter(next, samples[1..]) == next;
    } else {
      ReportsKeepUp(next, samples[1..]);
    }
  }

  /** Each report is paid for with ten points or with five seconds. */
  lemma {:induction false} ReportsArePaidFor(m: Mark, samples: seq<Sample>) returns (steps: nat, waits: nat)
    requires ClockRuns(m.ms, samples)
    ensures |Published(m, samples)| == steps + waits
    ensures steps * OTA_PROGRESS_STEP_PCT <= MarkAfter(m, samples).pct - m.pct
    ensures waits * OTA_PROGRESS_INTERVAL_MS <= MarkAfter(m, samples).ms - m.ms
    ensures samples == [] || MarkAfter(m, samples).ms <= samples[|samples| - 1].1
    ensures samples == [] ==> MarkAfter(m, samples) == m
    decreases |samples|
  {
    if samples == [] {
      steps, waits := 0, 0;
    } else {
      var (pct, now) := samples[0];
      var next := AfterSample(m, pct, now);
      steps, waits := ReportsArePaidFor(next, samples[1..]);
      assert |samples| > 1 ==> samples[1..][|samples[1..]| - 1] == samples[|samples| - 1];
      if Due(m, pct, now) {
        if pct >= m.pct + OTA_PROGRESS_STEP_PCT {
          steps := steps + 1;
        } else {
          waits := waits + 1;
        }
      }
    }
  }

  /** The percentages and times at which the read loop finds itself while it downloads `total` bytes. */
  predicate OfADownload(total: UInt32, start: int, got: seq<nat>, samples: seq<Sample>) {
    && |samples| == |got|
    && (forall i, j :: 0 <= i < j < |got| ==> got[i] <= got[j])
    && (forall i :: 0 <= i < |got| ==> got[i] <= total && samples[i].0 == Percent(got[i], total))
    && ClockRuns(start, samples)
  }

  lemma PaidInFull(steps: nat, waits: nat, points: int, ms: int)
    requires steps * OTA_PROGRESS_STEP_PCT <= points && waits * OTA_PROGRESS_INTERVAL_MS <= ms
    ensures steps + waits <= points / OTA_PROGRESS_STEP_PCT + ms / OTA_PROGRESS_INTERVAL_MS
  {
    assert steps <= points / OTA_PROGRESS_STEP_PCT;
    assert waits <= ms / OTA_PROGRESS_INTERVAL_MS;
  }

  /** As many reports at most as tens of the last percentage and fives of the seconds that went by. */
  lemma FewReports(total: UInt32, start: int, got: seq<nat>, samples: seq<Sample>)
    requires total > 0 && OfADownload(total, start, got, samples) && samples != []
    ensures var last := samples[|samples| - 1];
            |Published(Mark(0, start), samples)| <= last.0 / OTA_PROGRESS_STEP_PCT + (last.1 - start) / OTA_PROGRESS_INTERVAL_MS
  {
    var m := Mark(0, start);
    var last := samples[|samples| - 1];
    var steps, waits := ReportsArePaidFor(m, samples);
    PercentIsTheShare(got[|got| - 1], total);
    ReportsWereRead(m, samples, total, got);
    PaidInFull(steps, waits, last.0, last.1 - start);
  }

  /**
   Over a whole download the reported progress strictly increases from above 0 up to at most 100,
   which is only reported once every byte was read; it is never ten points behind, nor behind at all five
   seconds after the last report; and there are at
   most as many reports as tens of the last percentage and fives of the seconds that went by.
   */
  lemma ProgressOfADownload(total: UInt32, start: int, got: seq<nat>, samples: seq<Sample>)
    requires total > 0 && OfADownload(total, start, got, samples) && samples != []
    ensures var p := Published(Mark(0, start), samples);
            var last := samples[|samples| - 1];
            && Increasing(p, 0)
            && LastOf(p, 0) <= last.0 < LastOf(p, 0) + OTA_PROGRESS_STEP_PCT
            && (LastOf(p, 0) < last.0 ==> last.1 < MarkAfter(Mark(0, start), samples).ms + 5000)
            && (LastOf(p, 0) == 100 ==> got[|got| - 1] == total)
            && |p| <= last.0 / OTA_PROGRESS_STEP_PCT + (last.1 - start) / OTA_PROGRESS_INTERVAL_MS
  {
    var m := Mark(0, start);
    ReportsGoUp(m, samples);
    ReportsKeepUp(m, samples);
    PercentIsTheShare(got[|got| - 1], total);
    ReportsWereRead(m, samples, total, got);
    FewReports(total, start, got, samples);
  }

  lemma {:induction false} ReportsWereRead(m: Mark, samples: seq<Sample>, total: UInt32, got: seq<nat>)
    requires |samples| == |got| && samples != []
    requires forall i, j :: 0 <= i < j < |got| ==> got[i] <= got[j]
    requires forall i :: 0 <= i < |got| ==> samples[i].0 == Percent(got[i], total)
    ensures MarkAfter(m, samples).pct <= m.pct || MarkAfter(m, samples).pct <= samples[|samples| - 1].0
    decreases |samples|
  {
    var next := AfterSample(m, samples[0].0, samples[0].1);
    if |samples| == 1 {
      assert MarkAfter(next, samples[1..]) == next;
    } else {
      PercentIsMonotone(got[0], got[|got| - 1], total);
      ReportsWereRead(next, samples[1..], total, got[1..]);
    }
  }
}
