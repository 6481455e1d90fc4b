/**
 The running interval sum of a game session (power-libperfmgr/aidl/SessionRecords.cpp): it is filled
 by the first three positive start intervals, and from then on gains the newest interval and loses
 the one three frames back.
 */
module SessionFps {
  import opened SessionMetrics
  import opened SessionWindow

  function PositiveCount(g: seq<CycleRecord>): nat {
    if g == [] then 0 else PositiveCount(g[..|g| - 1]) + if g[|g| - 1].startIntervalUs > 0 then 1 else 0
  }

  function PositiveSum(g: seq<CycleRecord>): int {
    if g == [] then 0
    else PositiveSum(g[..|g| - 1]) + if g[|g| - 1].startIntervalUs > 0 then g[|g| - 1].startIntervalUs else 0
  }

  /** The records up to the third positive interval. */
  function WarmUp(g: seq<CycleRecord>): (w: seq<CycleRecord>)
    requires PositiveCount(g) >= TOTAL_FRAMES_FOR_FPS_CHECK
    ensures PositiveCount(w) == TOTAL_FRAMES_FOR_FPS_CHECK && w <= g
  {
    if PositiveCount(g[..|g| - 1]) >= TOTAL_FRAMES_FOR_FPS_CHECK then WarmUp(g[..|g| - 1]) else g
  }

  lemma {:induction false} CountsOfSnoc(g: seq<CycleRecord>, r: CycleRecord)
    ensures PositiveCount(g + [r]) == PositiveCount(g) + if r.startIntervalUs > 0 then 1 else 0
    ensures PositiveSum(g + [r]) == PositiveSum(g) + if r.startIntervalUs > 0 then r.startIntervalUs else 0
  {
    assert (g + [r])[..|g|] == g;
  }

  lemma {:induction false} CountBounds(g: seq<CycleRecord>)
    ensures PositiveCount(g) <= |g| && PositiveSum(g) >= PositiveCount(g)
    ensures PositiveCount(g) == 0 ==> PositiveSum(g) == 0
  {
    if g != [] {
      CountBounds(g[..|g| - 1]);
    }
  }

  /** What the warm-up leaves in the running sum beyond the last three intervals. */
  ghost function Offset(g: seq<CycleRecord>): int
    requires PositiveCount(g) >= TOTAL_FRAMES_FOR_FPS_CHECK
  {
    CountBounds(WarmUp(g));
    PositiveSum(WarmUp(g)) - LastThreeSum(WarmUp(g))
  }

  /** By how much an interval falls short of a positive one. */
  function Shortfall(r: CycleRecord): nat {
    if r.startIntervalUs > 0 then 0 else -r.startIntervalUs
  }

  lemma {:induction false} LastThree(w: seq<CycleRecord>)
    requires |w| >= 3
    ensures var n := |w|;
            && PositiveSum(w) == PositiveSum(w[..n - 3]) + LastThreeSum(w) + Shortfall(w[n - 3]) + Shortfall(w[n - 2]) + Shortfall(w[n - 1])
            && (PositiveCount(w) == PositiveCount(w[..n - 3]) + 3 <==>
                  w[n - 3].startIntervalUs > 0 && w[n - 2].startIntervalUs > 0 && w[n - 1].startIntervalUs > 0)
            && PositiveCount(w) <= PositiveCount(w[..n - 3]) + 3
  {
    var n := |w|;
    CountsOfSnoc(w[..n - 3], w[n - 3]);
    CountsOfSnoc(w[..n - 2], w[n - 2]);
    CountsOfSnoc(w[..n - 1], w[n - 1]);
    assert w[..n - 3] + [w[n - 3]] == w[..n - 2] && w[..n - 2] + [w[n - 2]] == w[..n - 1] && w[..n - 1] + [w[n - 1]] == w;
  }

  /** The offset is made of the positive intervals before the last three of the warm-up and of what
      these three fall short of being positive; it is never negative, and zero exactly when all three
      are positive, that is, when no interval after the first positive one was skipped. */
  lemma {:induction false} OffsetExact(g: seq<CycleRecord>)
    requires PositiveCount(g) >= TOTAL_FRAMES_FOR_FPS_CHECK
    ensures var w := WarmUp(g);
            var n := |w|;
            && n >= 3
            && Offset(g) == PositiveSum(w[..n - 3]) + Shortfall(w[n - 3]) + Shortfall(w[n - 2]) + Shortfall(w[n - 1])
            && Offset(g) >= 0
            && (Offset(g) == 0 <==>
                  w[n - 3].startIntervalUs > 0 && w[n - 2].startIntervalUs > 0 && w[n - 1].startIntervalUs > 0)
  {
    var w := WarmUp(g);
    CountBounds(w);
    LastThree(w);
    CountBounds(w[..|w| - 3]);
  }

  // ---------------------------------------------------------------- over game reports

  ghost predicate Warming(f: Fields, count: int, sum: int) {
    f.addedFramesForFPSCheck == count && f.latestStartIntervalSumUs == sum
  }

  /** The records g have come since the check began. */
  ghost predicate Checking(f: Fields, p: Past, base: seq<CycleRecord>, g: seq<CycleRecord>) {
    && Valid(f, p) && f.maxNumOfRecords >= TOTAL_FRAMES_FOR_FPS_CHECK && p.history == base + g
    && if PositiveCount(g) < TOTAL_FRAMES_FOR_FPS_CHECK
       then Warming(f, PositiveCount(g), PositiveSum(g))
       else FpsOffset(f, p, Offset(g))
  }

  /** The FPS fields that a frame of the warm-up leaves. */
  lemma {:induction false} WarmUpFields(f: Fields, d: WorkDuration, targetNs: int)
    requires Usable(f) && f.maxNumOfRecords >= TOTAL_FRAMES_FOR_FPS_CHECK
    requires f.addedFramesForFPSCheck < TOTAL_FRAMES_FOR_FPS_CHECK
    ensures var f' := AddDuration(f, d, targetNs, true);
            var interval := NewRecord(f, d, targetNs, true).startIntervalUs;
            && f'.latestStartIntervalSumUs == f.latestStartIntervalSumUs + (if interval > 0 then interval else 0)
            && f'.addedFramesForFPSCheck == f.addedFramesForFPSCheck + (if interval > 0 then 1 else 0)
  {
  }

  /** The third positive interval ends the warm-up. */
  lemma {:induction false} WarmUpEnds(base: seq<CycleRecord>, g: seq<CycleRecord>, r: CycleRecord)
    requires PositiveCount(g) < TOTAL_FRAMES_FOR_FPS_CHECK && PositiveCount(g + [r]) >= TOTAL_FRAMES_FOR_FPS_CHECK
    ensures |g + [r]| >= 3 && PositiveCount(g + [r]) == TOTAL_FRAMES_FOR_FPS_CHECK
    ensures PositiveSum(g + [r]) == Offset(g + [r]) + LastThreeSum(base + (g + [r]))
  {
    CountsOfSnoc(g, r);
    CountBounds(g + [r]);
    assert (g + [r])[..|g|] == g;
    assert WarmUp(g + [r]) == g + [r];
    SameLastThree(base, g + [r]);
  }

  lemma {:induction false} SameLastThree(base: seq<CycleRecord>, g: seq<CycleRecord>)
    requires |g| >= 3
    ensures LastThreeSum(base + g) == LastThreeSum(g)
  {
  }

  lemma {:induction false} WarmUpStays(g: seq<CycleRecord>, r: CycleRecord)
    requires PositiveCount(g) >= TOTAL_FRAMES_FOR_FPS_CHECK
    ensures PositiveCount(g + [r]) >= TOTAL_FRAMES_FOR_FPS_CHECK && Offset(g + [r]) == Offset(g)
  {
    CountsOfSnoc(g, r);
    assert (g + [r])[..|g|] == g;
  }

  lemma {:induction false} WarmUpFrame(f: Fields, p: Past, g: seq<CycleRecord>, d: WorkDuration, targetNs: int) returns (p': Past)
    requires Valid(f, p) && f.maxNumOfRecords >= TOTAL_FRAMES_FOR_FPS_CHECK
    requires PositiveCount(g) < TOTAL_FRAMES_FOR_FPS_CHECK && Warming(f, PositiveCount(g), PositiveSum(g))
    ensures Usable(f)
    ensures var f' := AddDuration(f, d, targetNs, true);
            var r := NewRecord(f, d, targetNs, true);
            && Valid(f', p') && p'.history == p.history + [r]
            && Warming(f', PositiveCount(g + [r]), PositiveSum(g + [r]))
  {
    p' := AddDurationValid(f, p, d, targetNs, true);
    WarmUpFields(f, d, targetNs);
    CountsOfSnoc(g, NewRecord(f, d, targetNs, true));
  }

  /** The records after a frame of the warm-up. */
  lemma {:induction false} WarmUpFrameChecks(f': Fields, p': Past, base: seq<CycleRecord>, g: seq<CycleRecord>, r: CycleRecord)
    requires PositiveCount(g) < TOTAL_FRAMES_FOR_FPS_CHECK && f'.maxNumOfRecords >= TOTAL_FRAMES_FOR_FPS_CHECK
    requires Valid(f', p') && p'.history == base + (g + [r])
    requires Warming(f', PositiveCount(g + [r]), PositiveSum(g + [r]))
    ensures Checking(f', p', base, g + [r])
  {
    if PositiveCount(g + [r]) >= TOTAL_FRAMES_FOR_FPS_CHECK {
      WarmUpEnds(base, g, r);
    }
  }

  /** The records after a later frame. */
  lemma {:induction false} LaterFrameChecks(f': Fields, p': Past, base: seq<CycleRecord>, g: seq<CycleRecord>, r: CycleRecord)
    requires PositiveCount(g) >= TOTAL_FRAMES_FOR_FPS_CHECK
    requires FpsOffset(f', p', Offset(g)) && p'.history == base + (g + [r])
    ensures Checking(f', p', base, g + [r])
  {
    WarmUpStays(g, r);
  }

  lemma {:induction false} Regroup(base: seq<CycleRecord>, g: seq<CycleRecord>, r: CycleRecord)
    ensures base + g + [r] == base + (g + [r])
  {
  }

  lemma {:induction false} FrameKeepsChecking(f: Fields, p: Past, base: seq<CycleRecord>, g: seq<CycleRecord>, d: WorkDuration, targetNs: int)
    returns (p': Past, g': seq<CycleRecord>)
    requires Checking(f, p, base, g)
    ensures Usable(f) && Checking(AddDuration(f, d, targetNs, true), p', base, g')
  {
    ValidIsUsable(f, p);
    var r := NewRecord(f, d, targetNs, true);
    g' := g + [r];
    Regroup(base, g, r);
    if PositiveCount(g) >= TOTAL_FRAMES_FOR_FPS_CHECK {
      p' := FrameKeepsOffset(f, p, d, targetNs, Offset(g));
      LaterFrameChecks(AddDuration(f, d, targetNs, true), p', base, g, r);
    } else {
      p' := WarmUpFrame(f, p, g, d, targetNs);
      WarmUpFrameChecks(AddDuration(f, d, targetNs, true), p', base, g, r);
    }
  }

  lemma {:induction false} ReportKeepsChecking(f: Fields, p: Past, base: seq<CycleRecord>, g: seq<CycleRecord>, ds: seq<WorkDuration>, targetNs: int)
    returns (p': Past, g': seq<CycleRecord>)
    requires Checking(f, p, base, g)
    ensures Usable(f) && Checking(AddAll(f, ds, targetNs, true), p', base, g')
    decreases |ds|
  {
    ValidIsUsable(f, p);
    if ds == [] {
      p', g' := p, g;
    } else {
      var n := |ds| - 1;
      var p1, g1 := ReportKeepsChecking(f, p, base, g, ds[..n], targetNs);
      p', g' := FrameKeepsChecking(AddAll(f, ds[..n], targetNs, true), p1, base, g1, ds[n], targetNs);
    }
  }

  /** The check has just begun: fresh records, or frames without game metrics before. */
  ghost predicate Beginning(f: Fields, p: Past) {
    && Valid(f, p) && f.maxNumOfRecords >= TOTAL_FRAMES_FOR_FPS_CHECK
    && f.addedFramesForFPSCheck == 0 && f.latestStartIntervalSumUs == 0
  }

  /** Over any run of game reports without a reset: while fewer than three positive intervals have
      come, the running sum is their sum; afterwards it is that of the last three intervals, plus for
      ever the offset that the warm-up left (OffsetExact). */
  lemma {:induction false} GameRunOffset(f: Fields, p: Past, reports: seq<Op>) returns (f': Fields, p': Past, g: seq<CycleRecord>)
    requires Beginning(f, p) && forall i :: 0 <= i < |reports| ==> reports[i].Report? && reports[i].game
    ensures Usable(f) && f' == ApplyAll(f, reports) && Checking(f', p', p.history, g)
    decreases |reports|
  {
    ValidIsUsable(f, p);
    if reports == [] {
      f', p', g := f, p, [];
    } else {
      var n := |reports| - 1;
      var f1, p1, g1 := GameRunOffset(f, p, reports[..n]);
      f' := Apply(f1, reports[n]);
      p', g := ReportKeepsChecking(f1, p1, p.history, g1, reports[n].durations, reports[n].targetNs);
    }
  }

  lemma {:induction false} NewIsBeginning(k: nat, factor: real)
    requires k >= TOTAL_FRAMES_FOR_FPS_CHECK
    ensures Beginning(New(k, factor), Past([], 0, [], 0))
  {
    NewTracks(k, factor);
  }

  /** Four records with positive intervals from the second on: the check starts without an offset. */
  lemma {:induction false} PositiveWarmUp(g: seq<CycleRecord>)
    requires |g| >= 4 && g[1].startIntervalUs > 0 && g[2].startIntervalUs > 0 && g[3].startIntervalUs > 0
    ensures PositiveCount(g) >= TOTAL_FRAMES_FOR_FPS_CHECK && Offset(g) == 0
  {
    var n := if g[0].startIntervalUs > 0 then 3 else 4;
    FirstFour(g[..4]);
    assert g[..4][..3] == g[..3];
    WarmUpOfPrefix(g, n);
    OffsetExact(g);
  }

  lemma {:induction false} FirstFour(g: seq<CycleRecord>)
    requires |g| == 4 && g[1].startIntervalUs > 0 && g[2].startIntervalUs > 0 && g[3].startIntervalUs > 0
    ensures g[0].startIntervalUs > 0 ==> PositiveCount(g[..3]) == 3 && WarmUp(g[..3]) == g[..3]
    ensures g[0].startIntervalUs <= 0 ==> PositiveCount(g) == 3 && WarmUp(g) == g
  {
    CountsOfSnoc([], g[0]);
    CountsOfSnoc(g[..1], g[1]);
    CountsOfSnoc(g[..2], g[2]);
    CountsOfSnoc(g[..3], g[3]);
    assert [] + [g[0]] == g[..1] && g[..1] + [g[1]] == g[..2] && g[..2] + [g[2]] == g[..3] && g[..3] + [g[3]] == g;
    assert g[..3][..2] == g[..2];
  }

  /** From fresh records: when the second, third and fourth frame have positive intervals, the running
      sum is the sum of the last three intervals, from the fourth frame on and for ever. */
  lemma {:induction false} FreshGameRun(k: nat, factor: real, reports: seq<Op>) returns (f: Fields, p: Past)
    requires k >= TOTAL_FRAMES_FOR_FPS_CHECK && forall i :: 0 <= i < |reports| ==> reports[i].Report? && reports[i].game
    ensures Usable(New(k, factor)) && f == ApplyAll(New(k, factor), reports) && Valid(f, p)
    ensures var h := p.history;
            |h| >= 4 && h[1].startIntervalUs > 0 && h[2].startIntervalUs > 0 && h[3].startIntervalUs > 0 ==> FpsOffset(f, p, 0)
  {
    NewIsBeginning(k, factor);
    var g;
    f, p, g := GameRunOffset(New(k, factor), Past([], 0, [], 0), reports);
    assert p.history == g;
    if |g| >= 4 && g[1].startIntervalUs > 0 && g[2].startIntervalUs > 0 && g[3].startIntervalUs > 0 {
      PositiveWarmUp(g);
    }
  }

  lemma {:induction false} WarmUpOfPrefix(g: seq<CycleRecord>, n: nat)
    requires n <= |g| && PositiveCount(g[..n]) >= TOTAL_FRAMES_FOR_FPS_CHECK
    ensures PositiveCount(g) >= TOTAL_FRAMES_FOR_FPS_CHECK && WarmUp(g) == WarmUp(g[..n])
    decreases |g|
  {
    if n == |g| {
      assert g[..n] == g;
    } else {
      var m := |g| - 1;
      assert g[..m][..n] == g[..n];
      WarmUpOfPrefix(g[..m], n);
      CountsOfSnoc(g[..m], g[m]);
      assert g[..m] + [g[m]] == g;
    }
  }

  /** A repeated timestamp after the first positive interval: that interval stays in the sum for ever. */
  lemma {:induction false} SkippedIntervalStays(g: seq<CycleRecord>)
    requires |g| == 5 && g[0].startIntervalUs == 0 && g[1].startIntervalUs > 0 && g[2].startIntervalUs == 0
    requires g[3].startIntervalUs > 0 && g[4].startIntervalUs > 0
    ensures PositiveCount(g) == TOTAL_FRAMES_FOR_FPS_CHECK && Offset(g) == g[1].startIntervalUs
  {
    SecondIsFirst(g);
    CountsOfSnoc(g[..2], g[2]);
    CountsOfSnoc(g[..3], g[3]);
    CountsOfSnoc(g[..4], g[4]);
    assert g[..2] + [g[2]] == g[..3] && g[..3] + [g[3]] == g[..4] && g[..4] + [g[4]] == g;
    LastThree(g);
  }

  lemma {:induction false} SecondIsFirst(g: seq<CycleRecord>)
    requires |g| >= 2 && g[0].startIntervalUs == 0 && g[1].startIntervalUs > 0
    ensures PositiveCount(g[..2]) == 1 && PositiveSum(g[..2]) == g[1].startIntervalUs
  {
    CountsOfSnoc([], g[0]);
    CountsOfSnoc(g[..1], g[1]);
    assert [] + [g[0]] == g[..1] && g[..1] + [g[1]] == g[..2];
  }

  // ---------------------------------------------------------------- across a reset

  /** A reset keeps the running sum, the count of the warm-up and the ring's records; the frames after
      it lose the intervals of its last three slots, one by one. */
  ghost function LeftBehind(f: Fields): seq<CycleRecord>
    requires |f.records| == f.maxNumOfRecords >= TOTAL_FRAMES_FOR_FPS_CHECK
  {
    f.records[f.maxNumOfRecords - 3..]
  }

  /** The records after a reset up to the end of a warm-up in which `added` frames were counted before:
      none when it was over. */
  ghost function RestOfWarmUp(added: int, g: seq<CycleRecord>): (w: seq<CycleRecord>)
    requires added + PositiveCount(g) >= TOTAL_FRAMES_FOR_FPS_CHECK
    ensures w <= g
  {
    if g == [] || added + PositiveCount(g[..|g| - 1]) < TOTAL_FRAMES_FOR_FPS_CHECK then g
    else RestOfWarmUp(added, g[..|g| - 1])
  }

  /** What the running sum then has beyond the last three intervals, those left behind included. */
  ghost function ResetOffset(added: int, sum: int, left: seq<CycleRecord>, g: seq<CycleRecord>): int
    requires |left| == 3 && added + PositiveCount(g) >= TOTAL_FRAMES_FOR_FPS_CHECK
  {
    var w := RestOfWarmUp(added, g);
    sum + PositiveSum(w) - LastThreeSum(left + w)
  }

  /** The records g have come since a reset at which the warm-up had counted `added` frames, the sum
      was `sum` and the last slots held `left`. */
  ghost predicate SinceReset(f: Fields, p: Past, added: int, sum: int, left: seq<CycleRecord>, g: seq<CycleRecord>) {
    && |left| == 3 && Valid(f, p) && f.maxNumOfRecords >= TOTAL_FRAMES_FOR_FPS_CHECK && p.history == g
    && StillLeft(f, left, |g|)
    && if added + PositiveCount(g) < TOTAL_FRAMES_FOR_FPS_CHECK
       then Warming(f, added + PositiveCount(g), sum + PositiveSum(g))
       else f.addedFramesForFPSCheck >= TOTAL_FRAMES_FOR_FPS_CHECK
            && f.latestStartIntervalSumUs == ResetOffset(added, sum, left, g) + LastThreeSum(left + g)
  }

  /** The last slots that the n frames since the reset have not passed yet. */
  ghost predicate StillLeft(f: Fields, left: seq<CycleRecord>, n: nat)
    requires |left| == 3
  {
    && |f.records| == f.maxNumOfRecords >= 3
    && forall j :: n <= j < 3 ==> f.records[f.maxNumOfRecords - 3 + j] == left[j]
  }

  lemma {:induction false} NextSlotIs(f: Fields, h: seq<CycleRecord>)
    requires RingHolds(f, h) && |h| < f.maxNumOfRecords
    ensures NextIndex(f) == |h|
  {
  }

  /** The interval that the next frame takes out of the sum. */
  lemma {:induction false} NextFrameLoses(f: Fields, p: Past, left: seq<CycleRecord>, interval: int)
    requires |left| == 3 && Valid(f, p) && StillLeft(f, left, |p.history|)
    requires f.addedFramesForFPSCheck >= TOTAL_FRAMES_FOR_FPS_CHECK
    ensures Usable(f)
    ensures FpsCheck(MakeRoom(f), interval, true).0
         == f.latestStartIntervalSumUs + interval - (left + p.history)[|p.history|].startIntervalUs
  {
    if |p.history| >= 3 {
      FpsSumTracksLastThree(f, p, interval);
    } else {
      ValidIsUsable(f, p);
      NextSlotIs(f, p.history);
    }
  }

  lemma {:induction false} SlotsStillLeft(f: Fields, p: Past, left: seq<CycleRecord>, d: WorkDuration, targetNs: int)
    requires |left| == 3 && Valid(f, p) && StillLeft(f, left, |p.history|)
    ensures Usable(f) && StillLeft(AddDuration(f, d, targetNs, true), left, |p.history| + 1)
  {
    ValidIsUsable(f, p);
    if |p.history| < 3 {
      NextSlotIs(f, p.history);
    }
  }

  lemma {:induction false} LastThreeSnoc(left: seq<CycleRecord>, g: seq<CycleRecord>, r: CycleRecord)
    requires |left| == 3
    ensures LastThreeSum(left + (g + [r])) == LastThreeSum(left + g) + r.startIntervalUs - (left + g)[|g|].startIntervalUs
  {
    assert left + (g + [r]) == (left + g) + [r];
  }

  lemma {:induction false} RestOfWarmUpSnoc(added: int, g: seq<CycleRecord>, r: CycleRecord)
    requires added + PositiveCount(g + [r]) >= TOTAL_FRAMES_FOR_FPS_CHECK
    ensures RestOfWarmUp(added, g + [r])
         == if added + PositiveCount(g) < TOTAL_FRAMES_FOR_FPS_CHECK then g + [r] else RestOfWarmUp(added, g)
  {
    assert (g + [r])[..|g|] == g;
  }

  /** A frame of the check, warmed up: what it does to the sum. */
  lemma {:induction false} LaterFrameAfterReset(f: Fields, p: Past, added: int, sum: int, left: seq<CycleRecord>, g: seq<CycleRecord>,
                                                d: WorkDuration, targetNs: int)
    requires SinceReset(f, p, added, sum, left, g) && added + PositiveCount(g) >= TOTAL_FRAMES_FOR_FPS_CHECK
    ensures Usable(f)
    ensures var f', r := AddDuration(f, d, targetNs, true), NewRecord(f, d, targetNs, true);
            && added + PositiveCount(g + [r]) >= TOTAL_FRAMES_FOR_FPS_CHECK
            && f'.addedFramesForFPSCheck >= TOTAL_FRAMES_FOR_FPS_CHECK
            && f'.latestStartIntervalSumUs == ResetOffset(added, sum, left, g + [r]) + LastThreeSum(left + (g + [r]))
  {
    ValidIsUsable(f, p);
    var r := NewRecord(f, d, targetNs, true);
    CountsOfSnoc(g, r);
    RestOfWarmUpSnoc(added, g, r);
    LastThreeSnoc(left, g, r);
    NextFrameLoses(f, p, left, r.startIntervalUs);
    FpsFieldsAfter(f, d, targetNs);
  }

  /** A frame of the warm-up. */
  lemma {:induction false} WarmUpFrameAfterReset(f: Fields, p: Past, added: int, sum: int, left: seq<CycleRecord>, g: seq<CycleRecord>,
                                                 d: WorkDuration, targetNs: int)
    requires SinceReset(f, p, added, sum, left, g) && added + PositiveCount(g) < TOTAL_FRAMES_FOR_FPS_CHECK
    ensures Usable(f)
    ensures var f', r := AddDuration(f, d, targetNs, true), NewRecord(f, d, targetNs, true);
            if added + PositiveCount(g + [r]) < TOTAL_FRAMES_FOR_FPS_CHECK
            then Warming(f', added + PositiveCount(g + [r]), sum + PositiveSum(g + [r]))
            else f'.addedFramesForFPSCheck >= TOTAL_FRAMES_FOR_FPS_CHECK
                 && f'.latestStartIntervalSumUs == ResetOffset(added, sum, left, g + [r]) + LastThreeSum(left + (g + [r]))
  {
    ValidIsUsable(f, p);
    var r := NewRecord(f, d, targetNs, true);
    CountsOfSnoc(g, r);
    WarmUpFields(f, d, targetNs);
    if added + PositiveCount(g + [r]) >= TOTAL_FRAMES_FOR_FPS_CHECK {
      RestOfWarmUpSnoc(added, g, r);
    }
  }

  lemma {:induction false} FrameSinceReset(f: Fields, p: Past, added: int, sum: int, left: seq<CycleRecord>, g: seq<CycleRecord>,
                                           d: WorkDuration, targetNs: int) returns (p': Past, g': seq<CycleRecord>)
    requires SinceReset(f, p, added, sum, left, g)
    ensures Usable(f) && SinceReset(AddDuration(f, d, targetNs, true), p', added, sum, left, g')
  {
    p' := AddDurationValid(f, p, d, targetNs, true);
    g' := g + [NewRecord(f, d, targetNs, true)];
    SlotsStillLeft(f, p, left, d, targetNs);
    if added + PositiveCount(g) >= TOTAL_FRAMES_FOR_FPS_CHECK {
      LaterFrameAfterReset(f, p, added, sum, left, g, d, targetNs);
    } else {
      WarmUpFrameAfterReset(f, p, added, sum, left, g, d, targetNs);
    }
  }

  lemma {:induction false} ReportSinceReset(f: Fields, p: Past, added: int, sum: int, left: seq<CycleRecord>, g: seq<CycleRecord>,
                                            ds: seq<WorkDuration>, targetNs: int) returns (p': Past, g': seq<CycleRecord>)
    requires SinceReset(f, p, added, sum, left, g)
    ensures Usable(f) && SinceReset(AddAll(f, ds, targetNs, true), p', added, sum, left, g')
    decreases |ds|
  {
    ValidIsUsable(f, p);
    if ds == [] {
      p', g' := p, g;
    } else {
      var n := |ds| - 1;
      var p1, g1 := ReportSinceReset(f, p, added, sum, left, g, ds[..n], targetNs);
      p', g' := FrameSinceReset(AddAll(f, ds[..n], targetNs, true), p1, added, sum, left, g1, ds[n], targetNs);
    }
  }

  lemma {:induction false} JustReset(f: Fields, p: Past)
    requires Valid(f, p) && f.maxNumOfRecords >= TOTAL_FRAMES_FOR_FPS_CHECK
    ensures SinceReset(Reset(f), Past([], 0, [], f.numOfFrameFPSJitters), f.addedFramesForFPSCheck, f.latestStartIntervalSumUs, LeftBehind(f), [])
  {
    EmptyTracks(Reset(f));
    assert LeftBehind(f) + [] == LeftBehind(f);
  }

  /** Over any run of game reports after a reset: while fewer than three positive intervals have come,
      counting those before the reset, the running sum goes on adding them up; afterwards it is that of
      the last three intervals, where the intervals in the last three slots of the ring count as those
      before the reset, plus a constant. */
  lemma {:induction false} ResetRunOffset(f: Fields, p: Past, reports: seq<Op>) returns (f': Fields, p': Past, g: seq<CycleRecord>)
    requires Valid(f, p) && f.maxNumOfRecords >= TOTAL_FRAMES_FOR_FPS_CHECK
    requires forall i :: 0 <= i < |reports| ==> reports[i].Report? && reports[i].game
    ensures Usable(Reset(f)) && f' == ApplyAll(Reset(f), reports)
    ensures SinceReset(f', p', f.addedFramesForFPSCheck, f.latestStartIntervalSumUs, LeftBehind(f), g)
    decreases |reports|
  {
    JustReset(f, p);
    ValidIsUsable(Reset(f), Past([], 0, [], f.numOfFrameFPSJitters));
    if reports == [] {
      f', p', g := Reset(f), Past([], 0, [], f.numOfFrameFPSJitters), [];
    } else {
      var n := |reports| - 1;
      var f1, p1, g1 := ResetRunOffset(f, p, reports[..n]);
      f' := Apply(f1, reports[n]);
      p', g := ReportSinceReset(f1, p1, f.addedFramesForFPSCheck, f.latestStartIntervalSumUs, LeftBehind(f), g1, reports[n].durations, reports[n].targetNs);
    }
  }

  /** After a reset of a check that had warmed up, the sum is from the third frame on that of the last
      three intervals plus the sum at the reset less the intervals left in the ring's last slots. */
  lemma {:induction false} ResetShiftsOffset(f: Fields, p: Past, reports: seq<Op>) returns (f': Fields, p': Past)
    requires Valid(f, p) && f.maxNumOfRecords >= TOTAL_FRAMES_FOR_FPS_CHECK
    requires f.addedFramesForFPSCheck >= TOTAL_FRAMES_FOR_FPS_CHECK
    requires forall i :: 0 <= i < |reports| ==> reports[i].Report? && reports[i].game
    ensures Usable(Reset(f)) && f' == ApplyAll(Reset(f), reports) && Valid(f', p')
    ensures |p'.history| >= 3 ==> FpsOffset(f', p', f.latestStartIntervalSumUs - LastThreeSum(LeftBehind(f)))
  {
    var g;
    f', p', g := ResetRunOffset(f, p, reports);
    WarmBeforeReset(f.addedFramesForFPSCheck, g);
    assert LeftBehind(f) + [] == LeftBehind(f);
    if |g| >= 3 {
      SameLastThree(LeftBehind(f), g);
    }
  }

  lemma {:induction false} WarmBeforeReset(added: int, g: seq<CycleRecord>)
    requires added >= TOTAL_FRAMES_FOR_FPS_CHECK
    ensures RestOfWarmUp(added, g) == []
  {
    if g != [] {
      WarmBeforeReset(added, g[..|g| - 1]);
    }
  }
}
