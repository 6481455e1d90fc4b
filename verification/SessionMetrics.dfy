/**
 Frame statistics of a power-hint session (power-libperfmgr/aidl/SessionMetrics.h and .cpp, and the
 two bucket updates of SessionRecords.cpp).
 */
module SessionMetrics {
  import opened Basics

  datatype FrameBuckets = FrameBuckets(total: int, from17: int, from25: int, from34: int, from67: int, from100: int) {
    function Janky(): int {
      from17 + from25 + from34 + from67 + from100
    }
  }

  const NoFrames := FrameBuckets(0, 0, 0, 0, 0, 0)

  /** frameTimingMs and frameTimingDeltaMs: in a report, the values of its frames; in a metric
      session, histograms with one bucket per millisecond. */
  datatype GameFrameMetrics = GameFrameMetrics(timingMs: seq<int>, deltaMs: seq<int>, totalTimeMs: int, frames: int)

  const NoGameFrames := GameFrameMetrics([], [], 0, 0)

  datatype FrameTimingMetrics = FrameTimingMetrics(buckets: FrameBuckets, game: GameFrameMetrics)

  /** updateFrameBuckets */
  function CountFrame(b: FrameBuckets, durationUs: int, isJank: bool): FrameBuckets {
    var b := b.(total := b.total + 1);
    if !isJank || durationUs < 17000 then b
    else if durationUs < 25000 then b.(from17 := b.from17 + 1)
    else if durationUs < 34000 then b.(from25 := b.from25 + 1)
    else if durationUs < 67000 then b.(from34 := b.from34 + 1)
    else if durationUs < 100000 then b.(from67 := b.from67 + 1)
    else b.(from100 := b.from100 + 1)
  }

  /** updateGameMetrics; previousUs is the interval of the frame before, if enough frames are known. */
  function CountGameFrame(g: GameFrameMetrics, intervalUs: int, previousUs: Option<int>): GameFrameMetrics {
    if intervalUs <= 0 then g
    else
      GameFrameMetrics(g.timingMs + [TruncDiv(intervalUs, 1000)],
                       if previousUs.None? then g.deltaMs else g.deltaMs + [TruncDiv(Abs(intervalUs - previousUs.value), 1000)],
                       g.totalTimeMs + TruncDiv(intervalUs, 1000),
                       g.frames + 1)
  }

  /** FrameBuckets::addUpNewFrames */
  function AddUp(a: FrameBuckets, b: FrameBuckets): FrameBuckets {
    FrameBuckets(a.total + b.total, a.from17 + b.from17, a.from25 + b.from25, a.from34 + b.from34,
                 a.from67 + b.from67, a.from100 + b.from100)
  }

  function Sum(s: seq<int>): int {
    if s == [] then 0 else Sum(s[..|s| - 1]) + s[|s| - 1]
  }

  lemma {:induction false} SumSnoc(s: seq<int>, x: int)
    ensures Sum(s + [x]) == Sum(s) + x
  {
    assert (s + [x])[..|s|] == s;
  }

  lemma {:induction false} SumUpdate(s: seq<int>, i: nat, x: int)
    requires i < |s|
    ensures Sum(s[i := x]) == Sum(s) - s[i] + x
  {
    var n := |s| - 1;
    if i < n {
      SumUpdate(s[..n], i, x);
      assert s[i := x][..n] == s[..n][i := x];
    } else {
      assert s[i := x][..n] == s[..n];
    }
  }
}
