/**
 Metric sessions (power-libperfmgr/aidl/SessionMetrics.cpp, updateFrameMetrics): what is accumulated
 between two resets, and that it is exactly what the reported frames say.
 */
module MetricSessions {
  import opened Basics
  import opened SessionMetrics
  import opened SessionWindow

  const TIME_BUCKETS_SIZE := 100

  datatype Scenario = Default | Game

  datatype Metric = Metric(scenario: Scenario, totalFrameNumber: int,
                           app: Option<FrameBuckets>, game: Option<GameFrameMetrics>)

  // ---------------------------------------------------------------- what the code computes

  /** The bucket of a frame time; negative times have none. */
  function Bucket(t: int): int {
    if t >= TIME_BUCKETS_SIZE then TIME_BUCKETS_SIZE - 1 else t
  }

  function Increment(hist: seq<int>, t: int): (h: seq<int>)
    requires |hist| == TIME_BUCKETS_SIZE
    ensures |h| == TIME_BUCKETS_SIZE
  {
    if t >= 0 then hist[Bucket(t) := hist[Bucket(t)] + 1] else hist
  }

  /** A histogram after counting some frame times. */
  function Counted(hist: seq<int>, ts: seq<int>): (h: seq<int>)
    requires |hist| == TIME_BUCKETS_SIZE
    ensures |h| == TIME_BUCKETS_SIZE
  {
    if ts == [] then hist else Increment(Counted(hist, ts[..|ts| - 1]), ts[|ts| - 1])
  }

  /** The part of the frame times that lies over the last bucket. */
  function Excess(ts: seq<int>): int {
    if ts == [] then 0
    else
      var t := ts[|ts| - 1];
      Excess(ts[..|ts| - 1]) + if t >= TIME_BUCKETS_SIZE then t - TIME_BUCKETS_SIZE else 0
  }

  function EmptyGame(): GameFrameMetrics {
    GameFrameMetrics(seq(TIME_BUCKETS_SIZE, _ => 0), seq(TIME_BUCKETS_SIZE, _ => 0), 0, 0)
  }

  ghost predicate HistogramSized(g: GameFrameMetrics) {
    |g.timingMs| == TIME_BUCKETS_SIZE && |g.deltaMs| == TIME_BUCKETS_SIZE
  }

  /** addNewFrames(GameFrameMetrics) */
  function AddGameFrames(g: GameFrameMetrics, n: GameFrameMetrics): (r: GameFrameMetrics)
    requires HistogramSized(g)
    ensures HistogramSized(r)
  {
    GameFrameMetrics(Counted(g.timingMs, n.timingMs), Counted(g.deltaMs, n.deltaMs),
                     g.totalTimeMs + n.totalTimeMs - Excess(n.timingMs), g.frames + n.frames)
  }

  ghost predicate Sized(m: Metric) {
    m.game.Some? ==> HistogramSized(m.game.value)
  }

  /** updateFrameMetrics, for a session that collects metrics. */
  function Update(m: Metric, r: FrameTimingMetrics): (m': Metric)
    requires Sized(m)
    ensures Sized(m')
  {
    match m.scenario
    case Game =>
      m.(game := Some(AddGameFrames(if m.game.Some? then m.game.value else EmptyGame(), r.game)),
         totalFrameNumber := m.totalFrameNumber + r.game.frames)
    case Default =>
      m.(app := Some(if m.app.Some? then AddUp(m.app.value, r.buckets) else r.buckets),
         totalFrameNumber := m.totalFrameNumber + r.buckets.total)
  }

  /** resetMetric */
  function ResetMetric(scenario: Scenario): Metric {
    Metric(scenario, 0, None, None)
  }

  ghost function AfterReports(scenario: Scenario, rs: seq<FrameTimingMetrics>): (m: Metric)
    ensures Sized(m)
  {
    if rs == [] then ResetMetric(scenario) else Update(AfterReports(scenario, rs[..|rs| - 1]), rs[|rs| - 1])
  }

  // ---------------------------------------------------------------- what the reports say

  /** A report as addReportedDurations fills it. */
  ghost predicate WellFormedReport(r: FrameTimingMetrics) {
    && r.game.frames == |r.game.timingMs|
    && r.game.totalTimeMs == Sum(r.game.timingMs)
    && (forall i :: 0 <= i < |r.game.timingMs| ==> r.game.timingMs[i] >= 0)
  }

  ghost function Timings(rs: seq<FrameTimingMetrics>): seq<int> {
    if rs == [] then [] else Timings(rs[..|rs| - 1]) + rs[|rs| - 1].game.timingMs
  }

  ghost function Deltas(rs: seq<FrameTimingMetrics>): seq<int> {
    if rs == [] then [] else Deltas(rs[..|rs| - 1]) + rs[|rs| - 1].game.deltaMs
  }

  ghost function Buckets(rs: seq<FrameTimingMetrics>): FrameBuckets {
    if rs == [] then NoFrames else AddUp(Buckets(rs[..|rs| - 1]), rs[|rs| - 1].buckets)
  }

  /** How many of the frame times fall into bucket i. */
  ghost function InBucket(ts: seq<int>, i: int): nat {
    if ts == [] then 0
    else
      var t := ts[|ts| - 1];
      InBucket(ts[..|ts| - 1], i) + if t >= 0 && Bucket(t) == i then 1 else 0
  }

  /** The sum of min(t, 100). */
  ghost function Capped(ts: seq<int>): int {
    if ts == [] then 0 else Capped(ts[..|ts| - 1]) + Min(ts[|ts| - 1], TIME_BUCKETS_SIZE)
  }

  ghost predicate IsHistogram(h: seq<int>, ts: seq<int>) {
    |h| == TIME_BUCKETS_SIZE && forall i :: 0 <= i < TIME_BUCKETS_SIZE ==> h[i] == InBucket(ts, i)
  }

  ghost predicate AllNonNegative(ts: seq<int>) {
    forall i :: 0 <= i < |ts| ==> ts[i] >= 0
  }

  // ---------------------------------------------------------------- lemmas

  lemma {:induction false} InBucketSnoc(ts: seq<int>, t: int, i: int)
    ensures InBucket(ts + [t], i) == InBucket(ts, i) + if t >= 0 && Bucket(t) == i then 1 else 0
  {
    assert (ts + [t])[..|ts|] == ts;
  }

  lemma {:induction false} CountedIsHistogram(h: seq<int>, old': seq<int>, ts: seq<int>)
    requires IsHistogram(h, old')
    ensures IsHistogram(Counted(h, ts), old' + ts)
  {
    if ts == [] {
      assert old' + ts == old';
    } else {
      var n := |ts| - 1;
      CountedIsHistogram(h, old', ts[..n]);
      assert old' + ts == old' + ts[..n] + [ts[n]];
      forall i | 0 <= i < TIME_BUCKETS_SIZE ensures Counted(h, ts)[i] == InBucket(old' + ts, i) {
        InBucketSnoc(old' + ts[..n], ts[n], i);
      }
    }
  }

  lemma {:induction false} CappedConcat(a: seq<int>, b: seq<int>)
    ensures Capped(a + b) == Capped(a) + Capped(b)
  {
    if b == [] {
      assert a + b == a;
    } else {
      var n := |b| - 1;
      CappedConcat(a, b[..n]);
      assert (a + b)[..|a + b| - 1] == a + b[..n];
    }
  }

  lemma {:induction false} SumWithoutExcess(ts: seq<int>)
    ensures Sum(ts) - Excess(ts) == Capped(ts)
  {
    if ts != [] {
      SumWithoutExcess(ts[..|ts| - 1]);
    }
  }

  /** One count per frame: the mass of a histogram is the number of its frames. */
  lemma {:induction false} MassOfCounted(h: seq<int>, ts: seq<int>)
    requires |h| == TIME_BUCKETS_SIZE && AllNonNegative(ts)
    ensures Sum(Counted(h, ts)) == Sum(h) + |ts|
  {
    if ts != [] {
      var n := |ts| - 1;
      MassOfCounted(h, ts[..n]);
      var c := Counted(h, ts[..n]);
      SumUpdate(c, Bucket(ts[n]), c[Bucket(ts[n])] + 1);
    }
  }

  lemma {:induction false} SumZeros(n: nat)
    ensures Sum(seq(n, _ => 0)) == 0
  {
    if n > 0 {
      SumZeros(n - 1);
      assert seq(n, _ => 0)[..n - 1] == seq(n - 1, _ => 0);
    }
  }

  // ---------------------------------------------------------------- a metric session

  /** What a game session's record must be for the frames with these times and time differences. */
  ghost predicate GameExact(g: GameFrameMetrics, timings: seq<int>, deltas: seq<int>) {
    && IsHistogram(g.timingMs, timings)
    && IsHistogram(g.deltaMs, deltas)
    && g.frames == |timings|
    && g.totalTimeMs == Capped(timings)
    && Sum(g.timingMs) == g.frames
  }

  lemma {:induction false} EmptyGameExact()
    ensures GameExact(EmptyGame(), [], [])
  {
    SumZeros(TIME_BUCKETS_SIZE);
  }

  lemma {:induction false} AddGameFramesExact(g: GameFrameMetrics, timings: seq<int>, deltas: seq<int>, r: FrameTimingMetrics)
    requires GameExact(g, timings, deltas) && WellFormedReport(r)
    ensures GameExact(AddGameFrames(g, r.game), timings + r.game.timingMs, deltas + r.game.deltaMs)
  {
    CountedIsHistogram(g.timingMs, timings, r.game.timingMs);
    CountedIsHistogram(g.deltaMs, deltas, r.game.deltaMs);
    CappedConcat(timings, r.game.timingMs);
    SumWithoutExcess(r.game.timingMs);
    MassOfCounted(g.timingMs, r.game.timingMs);
  }

  /** GAME: only the game field is filled, its histograms count each frame once in the right bucket,
      and the total time is the sum of min(interval, 100). */
  lemma {:induction false} GameSessionExact(rs: seq<FrameTimingMetrics>)
    requires forall i :: 0 <= i < |rs| ==> WellFormedReport(rs[i])
    ensures var m := AfterReports(Game, rs);
            && m.scenario == Game && m.app == None && (m.game.Some? <==> rs != [])
            && m.totalFrameNumber == |Timings(rs)|
            && (m.game.Some? ==> GameExact(m.game.value, Timings(rs), Deltas(rs)))
  {
    if rs != [] {
      var n := |rs| - 1;
      GameSessionExact(rs[..n]);
      var m := AfterReports(Game, rs[..n]);
      EmptyGameExact();
      assert m.game.None? ==> rs[..n] == [];
      AddGameFramesExact(if m.game.Some? then m.game.value else EmptyGame(), Timings(rs[..n]), Deltas(rs[..n]), rs[n]);
    }
  }

  /** DEFAULT: only the app field is filled, with the bucket-wise sums. */
  lemma {:induction false} AppSessionExact(rs: seq<FrameTimingMetrics>)
    ensures var m := AfterReports(Default, rs);
            && m.scenario == Default && m.game == None && (m.app.Some? <==> rs != [])
            && m.totalFrameNumber == Buckets(rs).total
            && (m.app.Some? ==> m.app.value == Buckets(rs))
  {
    if rs != [] {
      AppSessionExact(rs[..|rs| - 1]);
      assert AddUp(NoFrames, rs[|rs| - 1].buckets) == rs[|rs| - 1].buckets;
    }
  }

  // ---------------------------------------------------------------- the reports that the records make

  ghost predicate IsLongJank(r: CycleRecord) {
    r.isMissedCycle && r.totalDurationUs >= 17000
  }

  ghost function LongJanks(rs: seq<CycleRecord>): nat {
    if rs == [] then 0 else LongJanks(rs[..|rs| - 1]) + if IsLongJank(rs[|rs| - 1]) then 1 else 0
  }

  /** The positive start intervals. */
  ghost function PositiveIntervals(rs: seq<CycleRecord>): seq<int> {
    if rs == [] then []
    else if rs[|rs| - 1].startIntervalUs > 0 then PositiveIntervals(rs[..|rs| - 1]) + [rs[|rs| - 1].startIntervalUs]
    else PositiveIntervals(rs[..|rs| - 1])
  }

  /** ts are these times in whole milliseconds. */
  ghost predicate InMs(ts: seq<int>, us: seq<int>) {
    |ts| == |us| && forall i :: 0 <= i < |ts| ==> ts[i] == TruncDiv(us[i], 1000)
  }

  lemma {:induction false} PositiveIntervalsSnoc(rs: seq<CycleRecord>, r: CycleRecord)
    ensures PositiveIntervals(rs + [r]) == if r.startIntervalUs > 0 then PositiveIntervals(rs) + [r.startIntervalUs] else PositiveIntervals(rs)
  {
    assert (rs + [r])[..|rs|] == rs;
  }

  lemma {:induction false} PositiveIntervalsConcat(a: seq<CycleRecord>, b: seq<CycleRecord>)
    ensures PositiveIntervals(a + b) == PositiveIntervals(a) + PositiveIntervals(b)
  {
    if b == [] {
      assert a + b == a;
    } else {
      PositiveIntervalsConcat(a, b[..|b| - 1]);
      assert (a + b)[..|a + b| - 1] == a + b[..|b| - 1];
    }
  }

  lemma {:induction false} LongJanksConcat(a: seq<CycleRecord>, b: seq<CycleRecord>)
    ensures LongJanks(a + b) == LongJanks(a) + LongJanks(b)
  {
    if b == [] {
      assert a + b == a;
    } else {
      LongJanksConcat(a, b[..|b| - 1]);
      assert (a + b)[..|a + b| - 1] == a + b[..|b| - 1];
    }
  }

  lemma {:induction false} CountFrameExact(b: FrameBuckets, r: CycleRecord)
    ensures var b' := CountFrame(b, r.totalDurationUs, r.isMissedCycle);
            b'.total == b.total + 1 && b'.Janky() == b.Janky() + if IsLongJank(r) then 1 else 0
  {
  }

  lemma {:induction false} NonNegativeQuotient(x: int)
    requires x > 0
    ensures TruncDiv(x, 1000) >= 0
  {
  }

  lemma {:induction false} CountGameFrameWellFormed(b: FrameBuckets, b': FrameBuckets, g: GameFrameMetrics, interval: int, previous: Option<int>)
    requires WellFormedReport(FrameTimingMetrics(b, g))
    ensures WellFormedReport(FrameTimingMetrics(b', CountGameFrame(g, interval, previous)))
  {
    if interval > 0 {
      NonNegativeQuotient(interval);
      SumSnoc(g.timingMs, TruncDiv(interval, 1000));
    }
  }

  /** The records a report appends. */
  ghost function NewRecords(f: Fields, ds: seq<WorkDuration>, targetNs: int, game: bool): seq<CycleRecord>
    requires Usable(f) && (game ==> f.maxNumOfRecords >= TOTAL_FRAMES_FOR_FPS_CHECK)
  {
    if ds == [] then []
    else
      var n := |ds| - 1;
      NewRecords(f, ds[..n], targetNs, game) + [NewRecord(AddAll(f, ds[..n], targetNs, game), ds[n], targetNs, game)]
  }

  lemma {:induction false} LongJanksSnoc(rs: seq<CycleRecord>, r: CycleRecord)
    ensures LongJanks(rs + [r]) == LongJanks(rs) + if IsLongJank(r) then 1 else 0
  {
    assert (rs + [r])[..|rs|] == rs;
  }

  lemma {:induction false} OneFrameExact(m: FrameTimingMetrics, f: Fields, d: WorkDuration, targetNs: int, game: bool)
    requires Usable(f) && (game ==> f.maxNumOfRecords >= TOTAL_FRAMES_FOR_FPS_CHECK)
    requires WellFormedReport(m)
    ensures var r, m' := NewRecord(f, d, targetNs, game), MetricsAfter(m, f, d, targetNs, game);
            && m'.buckets.total == m.buckets.total + 1
            && m'.buckets.Janky() == m.buckets.Janky() + (if IsLongJank(r) then 1 else 0)
            && WellFormedReport(m')
            && (!game ==> m'.game == m.game)
            && (game ==> m'.game.timingMs == if r.startIntervalUs > 0 then m.game.timingMs + [TruncDiv(r.startIntervalUs, 1000)]
                                             else m.game.timingMs)
  {
    var r := NewRecord(f, d, targetNs, game);
    CountFrameExact(m.buckets, r);
    var b' := CountFrame(m.buckets, r.totalDurationUs, r.isMissedCycle);
    if game {
      CountGameFrameWellFormed(m.buckets, b', m.game, r.startIntervalUs, PreviousInterval(AddDuration(f, d, targetNs, game)));
    }
  }

  /** A report of `count` frames with these records: every frame counted once, the jank buckets hold
      exactly the missed frames of at least 17 ms, and the game times are the frames' positive start
      intervals in milliseconds. */
  ghost predicate Reports(m: FrameTimingMetrics, count: nat, rs: seq<CycleRecord>, game: bool) {
    && m.buckets.total == count
    && m.buckets.Janky() == LongJanks(rs)
    && WellFormedReport(m)
    && (game ==> InMs(m.game.timingMs, PositiveIntervals(rs)))
    && (!game ==> m.game == NoGameFrames)
  }

  lemma {:induction false} ReportsNext(m: FrameTimingMetrics, count: nat, rs: seq<CycleRecord>, f: Fields, d: WorkDuration, targetNs: int, game: bool)
    requires Usable(f) && (game ==> f.maxNumOfRecords >= TOTAL_FRAMES_FOR_FPS_CHECK)
    requires Reports(m, count, rs, game)
    ensures Reports(MetricsAfter(m, f, d, targetNs, game), count + 1, rs + [NewRecord(f, d, targetNs, game)], game)
  {
    OneFrameExact(m, f, d, targetNs, game);
    LongJanksSnoc(rs, NewRecord(f, d, targetNs, game));
    PositiveIntervalsSnoc(rs, NewRecord(f, d, targetNs, game));
  }

  const EmptyReport := FrameTimingMetrics(NoFrames, NoGameFrames)

  lemma {:induction false} NothingReported(rs: seq<CycleRecord>, game: bool)
    requires rs == []
    ensures Reports(EmptyReport, 0, rs, game)
  {
  }

  lemma {:induction false} ReportExact(f: Fields, ds: seq<WorkDuration>, targetNs: int, game: bool)
    requires Usable(f) && (game ==> f.maxNumOfRecords >= TOTAL_FRAMES_FOR_FPS_CHECK)
    ensures Reports(AllMetrics(EmptyReport, f, ds, targetNs, game), |ds|, NewRecords(f, ds, targetNs, game), game)
    decreases |ds|
  {
    if ds == [] {
      NothingReported(NewRecords(f, ds, targetNs, game), game);
    } else {
      var n := |ds| - 1;
      ReportExact(f, ds[..n], targetNs, game);
      ReportsNext(AllMetrics(EmptyReport, f, ds[..n], targetNs, game), n,
                  NewRecords(f, ds[..n], targetNs, game), AddAll(f, ds[..n], targetNs, game), ds[n], targetNs, game);
    }
  }

  // ---------------------------------------------------------------- differences of intervals

  /** The differences that the frames h[n..] are counted with: each frame with a positive interval
      against the frame before it, from the third frame since the last reset of the records on. */
  ghost function Differences(h: seq<CycleRecord>, n: nat): seq<int> {
    if |h| <= n then []
    else
      var last := |h| - 1;
      Differences(h[..last], n)
      + if last >= 2 && h[last].startIntervalUs > 0
        then [Abs(h[last].startIntervalUs - h[last - 1].startIntervalUs)] else []
  }

  lemma {:induction false} NoDifferences(h: seq<CycleRecord>)
    ensures Differences(h, |h|) == []
  {
  }

  lemma {:induction false} DifferencesSnoc(h: seq<CycleRecord>, r: CycleRecord, n: nat)
    requires n <= |h|
    ensures Differences(h + [r], n)
         == Differences(h, n) + if |h| >= 2 && r.startIntervalUs > 0
                                then [Abs(r.startIntervalUs - h[|h| - 1].startIntervalUs)] else []
  {
    assert (h + [r])[..|h|] == h;
  }

  /** After a frame, the record that updateGameMetrics looks back at is the frame before. */
  lemma {:induction false} PreviousIsFrameBefore(f: Fields, p: Past, d: WorkDuration, targetNs: int)
    requires Valid(f, p) && f.maxNumOfRecords >= TOTAL_FRAMES_FOR_FPS_CHECK
    ensures Usable(f)
    ensures PreviousInterval(AddDuration(f, d, targetNs, true))
         == if |p.history| >= 2 then Some(p.history[|p.history| - 1].startIntervalUs) else None
  {
    var p' := AddDurationValid(f, p, d, targetNs, true);
    var f' := AddDuration(f, d, targetNs, true);
    LooksBack(f, d, targetNs);
    assert f'.numOfFrames == Min(|p'.history|, f'.maxNumOfRecords);
    if |p.history| >= 2 {
      assert p'.history[|p.history| - 1] == p.history[|p.history| - 1];
      assert f.latestRecordIndex == Slot(|p.history| - 1, f.maxNumOfRecords);
    }
  }

  lemma {:induction false} LooksBack(f: Fields, d: WorkDuration, targetNs: int)
    requires Usable(f) && f.maxNumOfRecords >= TOTAL_FRAMES_FOR_FPS_CHECK
    ensures AddDuration(f, d, targetNs, true).preLastRecordIndex == f.latestRecordIndex
  {
  }

  lemma {:induction false} OneFrameDelta(m: FrameTimingMetrics, f: Fields, p: Past, d: WorkDuration, targetNs: int, n: nat)
    requires Valid(f, p) && f.maxNumOfRecords >= TOTAL_FRAMES_FOR_FPS_CHECK && n <= |p.history|
    requires InMs(m.game.deltaMs, Differences(p.history, n))
    ensures Usable(f)
    ensures InMs(MetricsAfter(m, f, d, targetNs, true).game.deltaMs, Differences(p.history + [NewRecord(f, d, targetNs, true)], n))
  {
    PreviousIsFrameBefore(f, p, d, targetNs);
    DifferencesSnoc(p.history, NewRecord(f, d, targetNs, true), n);
  }

  /** One report's differences. */
  lemma {:induction false} ReportDeltas(f: Fields, p: Past, ds: seq<WorkDuration>, targetNs: int) returns (p': Past)
    requires Valid(f, p) && f.maxNumOfRecords >= TOTAL_FRAMES_FOR_FPS_CHECK
    ensures Usable(f) && Valid(AddAll(f, ds, targetNs, true), p')
    ensures p'.history == p.history + NewRecords(f, ds, targetNs, true)
    ensures InMs(AllMetrics(EmptyReport, f, ds, targetNs, true).game.deltaMs, Differences(p'.history, |p.history|))
    decreases |ds|
  {
    ValidIsUsable(f, p);
    if ds == [] {
      p' := p;
      NoDifferences(p.history);
      assert p.history + [] == p.history;
    } else {
      var n := |ds| - 1;
      var p1 := ReportDeltas(f, p, ds[..n], targetNs);
      var f1 := AddAll(f, ds[..n], targetNs, true);
      OneFrameDelta(AllMetrics(EmptyReport, f, ds[..n], targetNs, true), f1, p1, ds[n], targetNs, |p.history|);
      p' := AddDurationValid(f1, p1, ds[n], targetNs, true);
      ConcatOneMore(p.history, NewRecords(f, ds[..n], targetNs, true), NewRecord(f1, ds[n], targetNs, true));
    }
  }

  lemma {:induction false} ConcatOneMore(a: seq<CycleRecord>, b: seq<CycleRecord>, r: CycleRecord)
    ensures a + b + [r] == a + (b + [r])
  {
  }

  // ---------------------------------------------------------------- a whole session

  /** One call's frames, or a reset of the records in between. */
  datatype Call = Batch(durations: seq<WorkDuration>, targetNs: int) | ResetRecords

  ghost function FieldsAfter(f: Fields, cs: seq<Call>, game: bool): (f': Fields)
    requires Usable(f) && (game ==> f.maxNumOfRecords >= TOTAL_FRAMES_FOR_FPS_CHECK)
    ensures Usable(f') && f'.maxNumOfRecords == f.maxNumOfRecords
  {
    if cs == [] then f
    else
      var f1 := FieldsAfter(f, cs[..|cs| - 1], game);
      match cs[|cs| - 1]
      case ResetRecords => Reset(f1)
      case Batch(ds, t) => AddAll(f1, ds, t, game)
  }

  /** The records of one call's frames. */
  ghost function CallRecords(f: Fields, c: Call, game: bool): seq<CycleRecord>
    requires Usable(f) && (game ==> f.maxNumOfRecords >= TOTAL_FRAMES_FOR_FPS_CHECK)
  {
    match c
    case ResetRecords => []
    case Batch(ds, t) => NewRecords(f, ds, t, game)
  }

  /** The records of all the session's frames. */
  ghost function AllRecords(f: Fields, cs: seq<Call>, game: bool): seq<CycleRecord>
    requires Usable(f) && (game ==> f.maxNumOfRecords >= TOTAL_FRAMES_FOR_FPS_CHECK)
  {
    if cs == [] then []
    else
      var n := |cs| - 1;
      AllRecords(f, cs[..n], game) + CallRecords(FieldsAfter(f, cs[..n], game), cs[n], game)
  }

  /** The metrics that a call reports; a reset reports none. */
  ghost function CallReports(f: Fields, c: Call, game: bool): seq<FrameTimingMetrics>
    requires Usable(f) && (game ==> f.maxNumOfRecords >= TOTAL_FRAMES_FOR_FPS_CHECK)
  {
    match c
    case ResetRecords => []
    case Batch(ds, t) => [AllMetrics(EmptyReport, f, ds, t, game)]
  }

  ghost function AllReports(f: Fields, cs: seq<Call>, game: bool): seq<FrameTimingMetrics>
    requires Usable(f) && (game ==> f.maxNumOfRecords >= TOTAL_FRAMES_FOR_FPS_CHECK)
  {
    if cs == [] then []
    else
      var n := |cs| - 1;
      AllReports(f, cs[..n], game) + CallReports(FieldsAfter(f, cs[..n], game), cs[n], game)
  }

  lemma {:induction false} NewRecordsCount(f: Fields, ds: seq<WorkDuration>, targetNs: int, game: bool)
    requires Usable(f) && (game ==> f.maxNumOfRecords >= TOTAL_FRAMES_FOR_FPS_CHECK)
    ensures |NewRecords(f, ds, targetNs, game)| == |ds|
  {
    if ds != [] {
      NewRecordsCount(f, ds[..|ds| - 1], targetNs, game);
    }
  }

  lemma {:induction false} AllReportsExact(f: Fields, cs: seq<Call>, game: bool)
    requires Usable(f) && (game ==> f.maxNumOfRecords >= TOTAL_FRAMES_FOR_FPS_CHECK)
    ensures ReportsOf(AllReports(f, cs, game), AllRecords(f, cs, game), game)
  {
    if cs != [] {
      var n := |cs| - 1;
      AllReportsExact(f, cs[..n], game);
      var f1 := FieldsAfter(f, cs[..n], game);
      CallReportsExact(AllReports(f, cs[..n], game), AllRecords(f, cs[..n], game), f1, cs[n], game);
    }
  }

  lemma {:induction false} CallReportsExact(rs: seq<FrameTimingMetrics>, records: seq<CycleRecord>, f: Fields, c: Call, game: bool)
    requires Usable(f) && (game ==> f.maxNumOfRecords >= TOTAL_FRAMES_FOR_FPS_CHECK)
    requires ReportsOf(rs, records, game)
    ensures ReportsOf(rs + CallReports(f, c, game), records + CallRecords(f, c, game), game)
  {
    match c
    case ResetRecords =>
      assert rs + [] == rs && records + [] == records;
    case Batch(ds, t) =>
      ReportExact(f, ds, t, game);
      NewRecordsCount(f, ds, t, game);
      OneMoreReport(rs, AllMetrics(EmptyReport, f, ds, t, game), records, NewRecords(f, ds, t, game), game);
  }

  /** What a sequence of reports says of the records behind it. */
  ghost predicate ReportsOf(rs: seq<FrameTimingMetrics>, records: seq<CycleRecord>, game: bool) {
    && (forall i :: 0 <= i < |rs| ==> WellFormedReport(rs[i]))
    && (game ==> InMs(Timings(rs), PositiveIntervals(records)))
    && Buckets(rs).total == |records| && Buckets(rs).Janky() == LongJanks(records)
  }

  lemma {:induction false} OneMoreReport(rs: seq<FrameTimingMetrics>, r: FrameTimingMetrics, records: seq<CycleRecord>,
                                         more: seq<CycleRecord>, game: bool)
    requires ReportsOf(rs, records, game) && Reports(r, |more|, more, game)
    ensures ReportsOf(rs + [r], records + more, game)
  {
    assert (rs + [r])[..|rs|] == rs;
    PositiveIntervalsConcat(records, more);
    LongJanksConcat(records, more);
  }

  /** The records since the last reset, h being those before the session. */
  ghost function RecordsSince(f: Fields, h: seq<CycleRecord>, cs: seq<Call>): seq<CycleRecord>
    requires Usable(f) && f.maxNumOfRecords >= TOTAL_FRAMES_FOR_FPS_CHECK
  {
    if cs == [] then h
    else
      var n := |cs| - 1;
      match cs[n]
      case ResetRecords => []
      case Batch(ds, t) => RecordsSince(f, h, cs[..n]) + NewRecords(FieldsAfter(f, cs[..n], true), ds, t, true)
  }

  /** The differences of all the session's frames, none of them across a reset. */
  ghost function AllDifferences(f: Fields, h: seq<CycleRecord>, cs: seq<Call>): seq<int>
    requires Usable(f) && f.maxNumOfRecords >= TOTAL_FRAMES_FOR_FPS_CHECK
  {
    if cs == [] then []
    else
      var n := |cs| - 1;
      match cs[n]
      case ResetRecords => AllDifferences(f, h, cs[..n])
      case Batch(_, _) => AllDifferences(f, h, cs[..n]) + Differences(RecordsSince(f, h, cs), |RecordsSince(f, h, cs[..n])|)
  }

  lemma {:induction false} DeltasSnoc(rs: seq<FrameTimingMetrics>, r: FrameTimingMetrics)
    ensures Deltas(rs + [r]) == Deltas(rs) + r.game.deltaMs
  {
    assert (rs + [r])[..|rs|] == rs;
  }

  lemma {:induction false} InMsConcat(a: seq<int>, b: seq<int>, us: seq<int>, vs: seq<int>)
    requires InMs(a, us) && InMs(b, vs)
    ensures InMs(a + b, us + vs)
  {
  }

  /** What one more batch adds to the differences. */
  lemma {:induction false} BatchDeltas(f: Fields, h: seq<CycleRecord>, cs: seq<Call>, p1: Past) returns (p': Past)
    requires Usable(f) && f.maxNumOfRecords >= TOTAL_FRAMES_FOR_FPS_CHECK && cs != [] && cs[|cs| - 1].Batch?
    requires Valid(FieldsAfter(f, cs[..|cs| - 1], true), p1) && p1.history == RecordsSince(f, h, cs[..|cs| - 1])
    requires InMs(Deltas(AllReports(f, cs[..|cs| - 1], true)), AllDifferences(f, h, cs[..|cs| - 1]))
    ensures Valid(FieldsAfter(f, cs, true), p') && p'.history == RecordsSince(f, h, cs)
    ensures InMs(Deltas(AllReports(f, cs, true)), AllDifferences(f, h, cs))
  {
    var n := |cs| - 1;
    var f1, c := FieldsAfter(f, cs[..n], true), cs[n];
    p' := ReportDeltas(f1, p1, c.durations, c.targetNs);
    var r := AllMetrics(EmptyReport, f1, c.durations, c.targetNs, true);
    DeltasSnoc(AllReports(f, cs[..n], true), r);
    InMsConcat(Deltas(AllReports(f, cs[..n], true)), r.game.deltaMs, AllDifferences(f, h, cs[..n]), Differences(p'.history, |p1.history|));
    assert AllReports(f, cs, true) == AllReports(f, cs[..n], true) + [r];
  }

  /** A reset adds none, and starts the records anew. */
  lemma {:induction false} ResetDeltas(f: Fields, h: seq<CycleRecord>, cs: seq<Call>, p1: Past) returns (p': Past)
    requires Usable(f) && f.maxNumOfRecords >= TOTAL_FRAMES_FOR_FPS_CHECK && cs != [] && cs[|cs| - 1].ResetRecords?
    requires Valid(FieldsAfter(f, cs[..|cs| - 1], true), p1)
    requires InMs(Deltas(AllReports(f, cs[..|cs| - 1], true)), AllDifferences(f, h, cs[..|cs| - 1]))
    ensures Valid(FieldsAfter(f, cs, true), p') && p'.history == RecordsSince(f, h, cs)
    ensures InMs(Deltas(AllReports(f, cs, true)), AllDifferences(f, h, cs))
  {
    p' := ResetIsValid(FieldsAfter(f, cs[..|cs| - 1], true), p1);
    ResetReportsNothing(f, cs);
  }

  lemma {:induction false} ResetIsValid(f: Fields, p: Past) returns (p': Past)
    requires Valid(f, p)
    ensures Valid(Reset(f), p') && p'.history == []
  {
    p' := Past([], 0, [], f.numOfFrameFPSJitters);
    EmptyTracks(Reset(f));
  }

  lemma {:induction false} ResetReportsNothing(f: Fields, cs: seq<Call>)
    requires Usable(f) && f.maxNumOfRecords >= TOTAL_FRAMES_FOR_FPS_CHECK && cs != [] && cs[|cs| - 1].ResetRecords?
    ensures AllReports(f, cs, true) == AllReports(f, cs[..|cs| - 1], true)
  {
  }

  lemma {:induction false} AllDeltasExact(f: Fields, p: Past, cs: seq<Call>) returns (p': Past)
    requires Valid(f, p) && f.maxNumOfRecords >= TOTAL_FRAMES_FOR_FPS_CHECK
    ensures Usable(f) && Valid(FieldsAfter(f, cs, true), p') && p'.history == RecordsSince(f, p.history, cs)
    ensures InMs(Deltas(AllReports(f, cs, true)), AllDifferences(f, p.history, cs))
    decreases |cs|
  {
    ValidIsUsable(f, p);
    if cs == [] {
      p' := p;
    } else {
      var p1 := AllDeltasExact(f, p, cs[..|cs| - 1]);
      if cs[|cs| - 1].Batch? {
        p' := BatchDeltas(f, p.history, cs, p1);
      } else {
        p' := ResetDeltas(f, p.history, cs, p1);
      }
    }
  }

  /** Some call is not just a reset. */
  predicate HasBatch(cs: seq<Call>) {
    exists i :: 0 <= i < |cs| && cs[i].Batch?
  }

  lemma {:induction false} HasBatchSnoc(cs: seq<Call>)
    requires cs != []
    ensures HasBatch(cs) <==> HasBatch(cs[..|cs| - 1]) || cs[|cs| - 1].Batch?
  {
    assert forall i :: 0 <= i < |cs| - 1 ==> cs[..|cs| - 1][i] == cs[i];
  }

  lemma {:induction false} ReportsOfCalls(f: Fields, cs: seq<Call>, game: bool)
    requires Usable(f) && (game ==> f.maxNumOfRecords >= TOTAL_FRAMES_FOR_FPS_CHECK)
    ensures AllReports(f, cs, game) != [] <==> HasBatch(cs)
  {
    if cs != [] {
      ReportsOfCalls(f, cs[..|cs| - 1], game);
      HasBatchSnoc(cs);
    }
  }

  /** A game session over any calls, with the records reset in between or not: its frame number is
      that of the frames with a positive start interval, its timing histogram and total time are those
      of their intervals, and its delta histogram is that of the differences to the frame before, from
      the third frame since a reset on. */
  lemma {:induction false} WholeGameSession(f: Fields, p: Past, cs: seq<Call>)
    requires Usable(f) && f.maxNumOfRecords >= TOTAL_FRAMES_FOR_FPS_CHECK
    ensures var rs := AllReports(f, cs, true);
            var m := AfterReports(Game, rs);
            && InMs(Timings(rs), PositiveIntervals(AllRecords(f, cs, true)))
            && (Valid(f, p) ==> InMs(Deltas(rs), AllDifferences(f, p.history, cs)))
            && m.app == None && m.totalFrameNumber == |Timings(rs)|
            && (m.game.Some? <==> HasBatch(cs)) && (HasBatch(cs) ==> GameExact(m.game.value, Timings(rs), Deltas(rs)))
  {
    AllReportsExact(f, cs, true);
    ReportsOfCalls(f, cs, true);
    GameSessionExact(AllReports(f, cs, true));
    if Valid(f, p) {
      var _ := AllDeltasExact(f, p, cs);
    }
  }

  /** An app session over any such calls: every frame counted once, and its jank buckets together hold
      exactly the missed frames of at least 17 ms. */
  lemma {:induction false} WholeAppSession(f: Fields, cs: seq<Call>, game: bool)
    requires Usable(f) && (game ==> f.maxNumOfRecords >= TOTAL_FRAMES_FOR_FPS_CHECK)
    ensures var rs, records := AllReports(f, cs, game), AllRecords(f, cs, game);
            var m := AfterReports(Default, rs);
            && m.game == None && m.totalFrameNumber == |records| && (m.app.Some? <==> HasBatch(cs))
            && (HasBatch(cs) ==> m.app.value.total == |records| && m.app.value.Janky() == LongJanks(records))
  {
    AllReportsExact(f, cs, game);
    ReportsOfCalls(f, cs, game);
    AppSessionExact(AllReports(f, cs, game));
  }

  // ---------------------------------------------------------------- the class

  class SessionMetricsRecord {
    var scenarioType: Scenario
    var totalFrameNumber: int
    var appFrameMetrics: Option<FrameBuckets>
    var gameFrameMetrics: Option<GameFrameMetrics>

    ghost function View(): Metric
      reads this
    {
      Metric(scenarioType, totalFrameNumber, appFrameMetrics, gameFrameMetrics)
    }

    constructor (scenario: Scenario)
      ensures View() == ResetMetric(scenario)
    {
      scenarioType, totalFrameNumber, appFrameMetrics, gameFrameMetrics := scenario, 0, None, None;
    }

    method Reset(scenario: Scenario)
      modifies this
      ensures View() == ResetMetric(scenario)
    {
      scenarioType, totalFrameNumber, appFrameMetrics, gameFrameMetrics := scenario, 0, None, None;
    }

    method CountTimes(hist: seq<int>, times: seq<int>) returns (h: seq<int>, excess: int)
      requires |hist| == TIME_BUCKETS_SIZE
      ensures h == Counted(hist, times) && excess == Excess(times)
    {
      h, excess := hist, 0;
      for i := 0 to |times|
        invariant |h| == TIME_BUCKETS_SIZE && h == Counted(hist, times[..i]) && excess == Excess(times[..i])
      {
        assert times[..i + 1][..i] == times[..i];
        var t := times[i];
        if t >= TIME_BUCKETS_SIZE {
          h := h[TIME_BUCKETS_SIZE - 1 := h[TIME_BUCKETS_SIZE - 1] + 1];
          excess := excess + (t - TIME_BUCKETS_SIZE);
        } else if t >= 0 {
          h := h[t := h[t] + 1];
        }
      }
      assert times[..|times|] == times;
    }

    method UpdateFrameMetrics(r: FrameTimingMetrics)
      requires Sized(View())
      modifies this
      ensures View() == Update(old(View()), r)
    {
      match scenarioType
      case Game =>
        var g := if gameFrameMetrics.Some? then gameFrameMetrics.value else EmptyGame();
        var timing, excess := CountTimes(g.timingMs, r.game.timingMs);
        var delta, _ := CountTimes(g.deltaMs, r.game.deltaMs);
        gameFrameMetrics := Some(GameFrameMetrics(timing, delta, g.totalTimeMs + r.game.totalTimeMs - excess, g.frames + r.game.frames));
        totalFrameNumber := totalFrameNumber + r.game.frames;
      case Default =>
        appFrameMetrics := Some(if appFrameMetrics.Some? then AddUp(appFrameMetrics.value, r.buckets) else r.buckets);
        totalFrameNumber := totalFrameNumber + r.buckets.total;
    }
  }
}
