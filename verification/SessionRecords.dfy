/**
 The class SessionRecords with its fields updated in place; each method is proved against the
 functions of SessionWindow, whose meaning is proved there.
 */
module SessionRecords {
  import opened Basics
  import opened SessionMetrics
  import opened SessionWindow

  class SessionRecords {
    const maxNumOfRecords: nat
    const jankCheckTimeFactor: real
    const records: array<CycleRecord>
    var recordsIndQueue: seq<int>
    var avgDurationUs: int
    var lastStartTimeNs: int
    var latestRecordIndex: int
    var preLastRecordIndex: int
    var numOfMissedCycles: int
    var numOfFrames: int
    var sumOfDurationsUs: int
    var latestStartIntervalSumUs: int
    var numOfFrameFPSJitters: int
    var addedFramesForFPSCheck: int

    ghost function View(): Fields
      reads this, records
    {
      Fields(maxNumOfRecords, jankCheckTimeFactor, records[..], recordsIndQueue, avgDurationUs, lastStartTimeNs,
             latestRecordIndex, preLastRecordIndex, numOfMissedCycles, numOfFrames, sumOfDurationsUs,
             latestStartIntervalSumUs, numOfFrameFPSJitters, addedFramesForFPSCheck)
    }

    constructor (maxRecords: nat, factor: real)
      requires maxRecords >= 1
      ensures View() == New(maxRecords, factor) && Usable(View()) && fresh(records)
    {
      maxNumOfRecords, jankCheckTimeFactor := maxRecords, factor;
      records := new CycleRecord[maxRecords](_ => CycleRecord(0, 0, false, false));
      recordsIndQueue, avgDurationUs, lastStartTimeNs, latestRecordIndex, preLastRecordIndex := [], 0, 0, -1, -1;
      numOfMissedCycles, numOfFrames, sumOfDurationsUs := 0, 0, 0;
      latestStartIntervalSumUs, numOfFrameFPSJitters, addedFramesForFPSCheck := 0, 0, 0;
    }

    method ResetRecords()
      requires Usable(View())
      modifies this
      ensures View() == Reset(old(View())) && Usable(View())
    {
      avgDurationUs, lastStartTimeNs, latestRecordIndex, numOfMissedCycles, numOfFrames, sumOfDurationsUs := 0, 0, -1, 0, 0, 0;
      recordsIndQueue := [];
    }

    method IndexAfterLatest() returns (index: int)
      requires Usable(View())
      ensures index == NextIndex(View()) && 0 <= index < maxNumOfRecords
    {
      WrapAround(latestRecordIndex + 1, maxNumOfRecords);
      index := (latestRecordIndex + 1) % maxNumOfRecords;
    }

    /** The removal at the top of addReportedDurations' loop. */
    method MakeRoomForOne()
      requires Usable(View())
      modifies this
      ensures View() == MakeRoom(old(View()))
    {
      if numOfFrames >= maxNumOfRecords {
        var index := IndexAfterLatest();
        sumOfDurationsUs := sumOfDurationsUs - records[index].totalDurationUs;
        if records[index].isMissedCycle {
          numOfMissedCycles := numOfMissedCycles - 1;
        }
        if records[index].isFPSJitter {
          numOfFrameFPSJitters := numOfFrameFPSJitters - 1;
        }
        numOfFrames := numOfFrames - 1;
        if recordsIndQueue[0] == index {
          recordsIndQueue := recordsIndQueue[1..];
        }
      }
    }

    /** Pops the indexes whose durations are not greater than d. */
    method PopNotGreater(d: int)
      requires forall i :: 0 <= i < |recordsIndQueue| ==> 0 <= recordsIndQueue[i] < records.Length
      modifies this`recordsIndQueue
      ensures recordsIndQueue == PopShorter(records[..], old(recordsIndQueue), d)
    {
      while recordsIndQueue != [] && records[recordsIndQueue[|recordsIndQueue| - 1]].totalDurationUs <= d
        invariant forall i :: 0 <= i < |recordsIndQueue| ==> 0 <= recordsIndQueue[i] < records.Length
        invariant PopShorter(records[..], recordsIndQueue, d) == PopShorter(records[..], old(recordsIndQueue), d)
        decreases |recordsIndQueue|
      {
        recordsIndQueue := recordsIndQueue[..|recordsIndQueue| - 1];
      }
    }

    method AppendRecord(r: CycleRecord)
      requires Usable(View()) && numOfFrames < maxNumOfRecords
      modifies this, records
      ensures View() == Append(old(View()), r)
    {
      var index := IndexAfterLatest();
      preLastRecordIndex := latestRecordIndex;
      latestRecordIndex := index;
      records[index] := r;
      numOfFrames := numOfFrames + 1;
      if r.isMissedCycle {
        numOfMissedCycles := numOfMissedCycles + 1;
      }
      if r.isFPSJitter {
        numOfFrameFPSJitters := numOfFrameFPSJitters + 1;
      }
      PopNotGreater(r.totalDurationUs);
      recordsIndQueue := recordsIndQueue + [latestRecordIndex];
      sumOfDurationsUs := sumOfDurationsUs + r.totalDurationUs;
      avgDurationUs := TruncDiv(sumOfDurationsUs, numOfFrames);
    }

    /** The FPS bookkeeping of one frame: whether it is a jitter, and the new running sum. */
    method CheckFps(interval: int, game: bool) returns (jitter: bool, sum: int, added: int)
      requires Usable(View()) && (game ==> maxNumOfRecords >= TOTAL_FRAMES_FOR_FPS_CHECK)
      ensures jitter <==> IsJitter(View(), interval, game)
      ensures (sum, added) == FpsCheck(View(), interval, game)
    {
      jitter, sum, added := false, latestStartIntervalSumUs, addedFramesForFPSCheck;
      if !game {
        sum, added := 0, 0;
      } else if addedFramesForFPSCheck < TOTAL_FRAMES_FOR_FPS_CHECK {
        if interval > 0 {
          sum, added := sum + interval, added + 1;
        }
      } else {
        jitter := interval as real > 1.4 * (latestStartIntervalSumUs as real) / 3.0;
        var index := IndexAfterLatest();
        var oldIndex := index - TOTAL_FRAMES_FOR_FPS_CHECK;
        if oldIndex < 0 {
          oldIndex := oldIndex + maxNumOfRecords;
        }
        sum := sum + interval - records[oldIndex].startIntervalUs;
      }
    }

    /** The record of a frame, and the FPS fields after it; f0 is the state before room was made. */
    method Measure(ghost f0: Fields, d: WorkDuration, targetNs: int, game: bool) returns (r: CycleRecord, sum: int, added: int)
      requires Usable(f0) && View() == MakeRoom(f0) && (game ==> maxNumOfRecords >= TOTAL_FRAMES_FOR_FPS_CHECK)
      ensures r == NewRecord(f0, d, targetNs, game)
      ensures (sum, added) == FpsCheck(MakeRoom(f0), r.startIntervalUs, game)
    {
      var startTimeNs := d.timeStampNanos - d.durationNanos;
      var interval := if numOfFrames > 0 then TruncDiv(startTimeNs - lastStartTimeNs, 1000) else 0;
      var jitter;
      jitter, sum, added := CheckFps(interval, game);
      var durationUs := TruncDiv(d.durationNanos, 1000);
      var missed := durationUs as real > TruncDiv(targetNs, 1000) as real * jankCheckTimeFactor;
      r := CycleRecord(interval, durationUs, missed, jitter);
    }

    method UpdateMetrics(m: FrameTimingMetrics, r: CycleRecord, game: bool) returns (m': FrameTimingMetrics)
      ensures m' == FrameTimingMetrics(
                      CountFrame(m.buckets, r.totalDurationUs, r.isMissedCycle),
                      if game then CountGameFrame(m.game, r.startIntervalUs, PreviousInterval(View())) else m.game)
    {
      m' := m.(buckets := CountFrame(m.buckets, r.totalDurationUs, r.isMissedCycle));
      if game {
        var previous := None;
        if numOfFrames > 2 && 0 <= preLastRecordIndex < records.Length {
          previous := Some(records[preLastRecordIndex].startIntervalUs);
        }
        m' := m'.(game := CountGameFrame(m.game, r.startIntervalUs, previous));
      }
    }

    method AddOneDuration(d: WorkDuration, targetNs: int, m: FrameTimingMetrics, game: bool) returns (m': FrameTimingMetrics)
      requires Usable(View()) && (game ==> maxNumOfRecords >= TOTAL_FRAMES_FOR_FPS_CHECK)
      modifies this, records
      ensures View() == AddDuration(old(View()), d, targetNs, game) && Usable(View())
      ensures m' == MetricsAfter(m, old(View()), d, targetNs, game)
    {
      ghost var f0 := View();
      MakeRoomForOne();
      var r, sum, added := Measure(f0, d, targetNs, game);
      AppendRecord(r);
      lastStartTimeNs := d.timeStampNanos - d.durationNanos;
      latestStartIntervalSumUs := sum;
      addedFramesForFPSCheck := added;
      m' := UpdateMetrics(m, r, game);
    }

    method AddReportedDurations(ds: seq<WorkDuration>, targetNs: int, m: FrameTimingMetrics, game: bool) returns (m': FrameTimingMetrics)
      requires Usable(View()) && (game ==> maxNumOfRecords >= TOTAL_FRAMES_FOR_FPS_CHECK)
      modifies this, records
      ensures View() == AddAll(old(View()), ds, targetNs, game)
      ensures m' == AllMetrics(m, old(View()), ds, targetNs, game)
    {
      m' := m;
      for i := 0 to |ds|
        invariant Usable(View())
        invariant View() == AddAll(old(View()), ds[..i], targetNs, game)
        invariant m' == AllMetrics(m, old(View()), ds[..i], targetNs, game)
      {
        assert ds[..i + 1][..i] == ds[..i];
        m' := AddOneDuration(ds[i], targetNs, m', game);
      }
      assert ds[..|ds|] == ds;
    }

    method GetMaxDuration() returns (d: Option<int>)
      requires Usable(View())
      ensures d == MaxDuration(View())
      ensures forall p :: Valid(View(), p) ==>
                if Last(p.history, maxNumOfRecords) == [] then d == None
                else d.Some? && IsMaxDuration(Last(p.history, maxNumOfRecords), d.value)
    {
      if recordsIndQueue == [] {
        d := None;
      } else {
        d := Some(records[recordsIndQueue[0]].totalDurationUs);
      }
      forall p | Valid(View(), p) {
        MaxIsExact(View(), p);
      }
    }

    method GetAvgDuration() returns (d: Option<int>)
      requires Usable(View())
      ensures forall p :: Valid(View(), p) ==>
                var w := Last(p.history, maxNumOfRecords);
                d == if w == [] then None else Some(TruncDiv(TotalDuration(w), |w|))
    {
      if numOfFrames <= 0 {
        d := None;
      } else {
        d := Some(avgDurationUs);
      }
      forall p | Valid(View(), p) {
        TotalsAreExact(View(), p);
      }
    }

    method CheckLowFrameRate(fps: int) returns (low: bool)
      requires Usable(View())
      ensures low <==> SessionWindow.IsLowFrameRate(View(), fps)
    {
      if numOfFrames < 3 {
        return false;
      }
      var i1 := latestRecordIndex;
      var i2 := if i1 == 0 then maxNumOfRecords - 1 else i1 - 1;
      var i3 := if i2 == 0 then maxNumOfRecords - 1 else i2 - 1;
      low := && LowRate(records[i1].startIntervalUs, fps)
             && LowRate(records[i2].startIntervalUs, fps)
             && LowRate(records[i3].startIntervalUs, fps);
    }
  }
}
