/**
 The sliding window of a session's last frames (power-libperfmgr/aidl/SessionRecords.cpp): a ring
 buffer of K records, running totals, and a double-ended queue of ring indexes, with descending
 durations, whose front is the longest frame.
 */
module SessionWindow {
  import opened Basics
  import opened SessionMetrics

  datatype WorkDuration = WorkDuration(timeStampNanos: int, durationNanos: int)

  datatype CycleRecord = CycleRecord(startIntervalUs: int, totalDurationUs: int, isMissedCycle: bool, isFPSJitter: bool)

  const TOTAL_FRAMES_FOR_FPS_CHECK := 3

  // ---------------------------------------------------------------- what the window means

  function TotalDuration(rs: seq<CycleRecord>): int {
    if rs == [] then 0 else TotalDuration(rs[..|rs| - 1]) + rs[|rs| - 1].totalDurationUs
  }

  function MissedCount(rs: seq<CycleRecord>): nat {
    if rs == [] then 0 else MissedCount(rs[..|rs| - 1]) + if rs[|rs| - 1].isMissedCycle then 1 else 0
  }

  function JitterCount(rs: seq<CycleRecord>): nat {
    if rs == [] then 0 else JitterCount(rs[..|rs| - 1]) + if rs[|rs| - 1].isFPSJitter then 1 else 0
  }

  ghost predicate IsMaxDuration(rs: seq<CycleRecord>, m: int) {
    && (exists i :: 0 <= i < |rs| && rs[i].totalDurationUs == m)
    && (forall i :: 0 <= i < |rs| ==> rs[i].totalDurationUs <= m)
  }

  /** The last min(|h|, k) records. */
  function Last(h: seq<CycleRecord>, k: nat): seq<CycleRecord> {
    if |h| <= k then h else h[|h| - k..]
  }

  predicate Missed(durationUs: int, targetNs: int, jankFactor: real) {
    durationUs as real > TruncDiv(targetNs, 1000) as real * jankFactor
  }

  predicate LowRate(intervalUs: int, fps: int) {
    fps != 0 && intervalUs as real >= 1000000.0 / (fps as real)
  }

  lemma {:induction false} TotalsOfSnoc(rs: seq<CycleRecord>, r: CycleRecord)
    ensures TotalDuration(rs + [r]) == TotalDuration(rs) + r.totalDurationUs
    ensures MissedCount(rs + [r]) == MissedCount(rs) + if r.isMissedCycle then 1 else 0
    ensures JitterCount(rs + [r]) == JitterCount(rs) + if r.isFPSJitter then 1 else 0
  {
    assert (rs + [r])[..|rs|] == rs;
  }

  lemma {:induction false} TotalsOfTail(rs: seq<CycleRecord>)
    requires rs != []
    ensures TotalDuration(rs[1..]) == TotalDuration(rs) - rs[0].totalDurationUs
    ensures MissedCount(rs[1..]) == MissedCount(rs) - if rs[0].isMissedCycle then 1 else 0
    ensures JitterCount(rs[1..]) == JitterCount(rs) - if rs[0].isFPSJitter then 1 else 0
  {
    if |rs| > 1 {
      var n := |rs| - 1;
      TotalsOfTail(rs[..n]);
      assert rs[1..][..n - 1] == rs[..n][1..];
    } else {
      assert rs[..0] == [];
    }
  }

  // ---------------------------------------------------------------- ring arithmetic

  /** The ring index of position j. */
  ghost function Slot(j: nat, k: nat): (i: nat)
    requires k >= 1
    ensures i < k
  {
    if j < k then j else Slot(j - k, k)
  }

  lemma {:induction false} WrapAround(i: nat, k: nat)
    requires 1 <= k && i <= k
    ensures i % k == if i == k then 0 else i
  {
  }

  /** Stepping an index with wrap-around gives the index of the next position. */
  lemma {:induction false} NextSlot(j: nat, k: nat)
    requires k >= 1
    ensures Slot(j + 1, k) == if Slot(j, k) + 1 == k then 0 else Slot(j, k) + 1
  {
    if j >= k {
      NextSlot(j - k, k);
    }
  }

  /** Stepping back d positions, with wrap-around. */
  lemma {:induction false} SlotBack(j: nat, d: nat, k: nat)
    requires k >= 1 && d <= k && d <= j
    ensures Slot(j - d, k) == if Slot(j, k) >= d then Slot(j, k) - d else Slot(j, k) - d + k
  {
    if j - d >= k {
      SlotBack(j - k, d, k);
    }
  }

  /** Positions less than k apart have different indexes. */
  lemma {:induction false} SlotsDiffer(i: nat, j: nat, k: nat)
    requires k >= 1 && i < j < i + k
    ensures Slot(i, k) != Slot(j, k)
  {
    SlotBack(j, j - i, k);
  }

  lemma {:induction false} AllSlotsDiffer(lo: nat, n: nat, k: nat)
    requires k >= 1 && n < lo + k
    ensures forall j :: lo <= j < n ==> Slot(j, k) != Slot(n, k)
  {
    forall j | lo <= j < n ensures Slot(j, k) != Slot(n, k) {
      SlotsDiffer(j, n, k);
    }
  }

  // ---------------------------------------------------------------- the descending queue

  ghost predicate Dominated(h: seq<CycleRecord>, pos: seq<nat>, j: nat)
    requires j < |h|
  {
    exists i :: 0 <= i < |pos| && j <= pos[i] < |h| && h[j].totalDurationUs <= h[pos[i]].totalDurationUs
  }

  /** pos holds positions of h[lo..], later ones strictly shorter, and every position is no longer
      than some queued position that is not older. */
  ghost predicate Descending(h: seq<CycleRecord>, lo: nat, pos: seq<nat>) {
    && (forall i :: 0 <= i < |pos| ==> lo <= pos[i] < |h|)
    && (forall i, j :: 0 <= i < j < |pos| ==> pos[i] < pos[j] && h[pos[i]].totalDurationUs > h[pos[j]].totalDurationUs)
    && (forall j :: lo <= j < |h| ==> Dominated(h, pos, j))
  }

  /** The front of the queue is the maximum of the window. */
  lemma {:induction false} FrontIsMax(h: seq<CycleRecord>, lo: nat, pos: seq<nat>)
    requires lo < |h| && Descending(h, lo, pos)
    ensures pos != [] && IsMaxDuration(h[lo..], h[pos[0]].totalDurationUs)
  {
    assert Dominated(h, pos, lo);
    var w := h[lo..];
    assert w[pos[0] - lo] == h[pos[0]];
    forall i | 0 <= i < |w| ensures w[i].totalDurationUs <= h[pos[0]].totalDurationUs {
      assert Dominated(h, pos, lo + i);
    }
  }

  lemma {:induction false} DropOldest(h: seq<CycleRecord>, lo: nat, pos: seq<nat>)
    requires lo < |h| && Descending(h, lo, pos)
    ensures pos != []
    ensures Descending(h, lo + 1, if pos[0] == lo then pos[1..] else pos)
  {
    assert Dominated(h, pos, lo);
    var pos' := if pos[0] == lo then pos[1..] else pos;
    forall j | lo + 1 <= j < |h| ensures Dominated(h, pos', j) {
      assert Dominated(h, pos, j);
      var i :| 0 <= i < |pos| && j <= pos[i] < |h| && h[j].totalDurationUs <= h[pos[i]].totalDurationUs;
      var i' := if pos[0] == lo then i - 1 else i;
      assert pos'[i'] == pos[i];
    }
  }

  /** Popping from the back what is not longer than the new record, then appending it. */
  lemma {:induction false} PushNewest(h: seq<CycleRecord>, lo: nat, pos: seq<nat>, kept: nat, r: CycleRecord)
    requires lo <= |h| && Descending(h, lo, pos) && kept <= |pos|
    requires forall i :: kept <= i < |pos| ==> h[pos[i]].totalDurationUs <= r.totalDurationUs
    requires kept > 0 ==> h[pos[kept - 1]].totalDurationUs > r.totalDurationUs
    ensures Descending(h + [r], lo, pos[..kept] + [|h|])
  {
    var h', pos' := h + [r], pos[..kept] + [|h|];
    assert pos'[kept] == |h| && h'[|h|] == r;
    forall j | lo <= j < |h'| ensures Dominated(h', pos', j) {
      if j < |h| {
        assert Dominated(h, pos, j);
        var i :| 0 <= i < |pos| && j <= pos[i] < |h| && h[j].totalDurationUs <= h[pos[i]].totalDurationUs;
        var i' := if i < kept then i else kept;
        assert j <= pos'[i'] < |h'| && h'[j].totalDurationUs <= h'[pos'[i']].totalDurationUs;
      }
    }
  }

  // ---------------------------------------------------------------- the fields as a value

  /** The fields of SessionRecords. */
  datatype Fields = Fields(maxNumOfRecords: nat, jankCheckTimeFactor: real,
                           records: seq<CycleRecord>, recordsIndQueue: seq<int>,
                           avgDurationUs: int, lastStartTimeNs: int, latestRecordIndex: int, preLastRecordIndex: int,
                           numOfMissedCycles: int, numOfFrames: int, sumOfDurationsUs: int,
                           latestStartIntervalSumUs: int, numOfFrameFPSJitters: int, addedFramesForFPSCheck: int)

  /** What the fields stand for: all records since the last reset, the position where the window
      starts, the queued positions, and the jitters counted before the reset and never taken back. */
  datatype Past = Past(history: seq<CycleRecord>, oldest: nat, positions: seq<nat>, jitterBase: int)

  ghost predicate RingHolds(f: Fields, h: seq<CycleRecord>) {
    && f.maxNumOfRecords >= 1 && |f.records| == f.maxNumOfRecords
    && f.latestRecordIndex == (if h == [] then -1 else Slot(|h| - 1, f.maxNumOfRecords))
    && forall j {:trigger h[j]} :: 0 <= j < |h| && |h| <= j + f.maxNumOfRecords ==>
         f.records[Slot(j, f.maxNumOfRecords)] == h[j]
  }

  ghost predicate QueueHolds(f: Fields, p: Past)
    requires f.maxNumOfRecords >= 1
  {
    Descending(p.history, p.oldest, p.positions) && IndexesOf(f.recordsIndQueue, p.positions, f.maxNumOfRecords)
  }

  /** queue holds the ring indexes of the positions. */
  ghost predicate IndexesOf(queue: seq<int>, positions: seq<nat>, k: nat)
    requires k >= 1
  {
    && |queue| == |positions|
    && forall i :: 0 <= i < |positions| ==> queue[i] == Slot(positions[i], k)
  }

  ghost predicate TotalsHold(f: Fields, p: Past)
    requires p.oldest <= |p.history|
  {
    var w := p.history[p.oldest..];
    && f.numOfFrames == |p.history| - p.oldest
    && f.sumOfDurationsUs == TotalDuration(w)
    && f.numOfMissedCycles == MissedCount(w)
    && f.numOfFrameFPSJitters == p.jitterBase + JitterCount(w)
  }

  /** The fields describe history[oldest..]. */
  ghost predicate Describes(f: Fields, p: Past) {
    && RingHolds(f, p.history)
    && p.oldest <= |p.history| <= p.oldest + f.maxNumOfRecords
    && QueueHolds(f, p)
    && TotalsHold(f, p)
  }

  /** Between calls, the window is the last min(n, K) records and the average is its truncated mean. */
  ghost predicate Valid(f: Fields, p: Past) {
    && Describes(f, p)
    && p.oldest == (if |p.history| <= f.maxNumOfRecords then 0 else |p.history| - f.maxNumOfRecords)
    && (f.numOfFrames > 0 ==> f.avgDurationUs == TruncDiv(f.sumOfDurationsUs, f.numOfFrames))
  }

  // ---------------------------------------------------------------- what the code does to the fields

  /** (latestRecordIndex + 1) % maxNumOfRecords, as WrapAround says. */
  function NextIndex(f: Fields): int {
    if f.latestRecordIndex + 1 == f.maxNumOfRecords then 0 else f.latestRecordIndex + 1
  }

  /** The removal of the oldest record from a full ring. */
  function RemoveOldest(f: Fields): Fields
    requires |f.records| == f.maxNumOfRecords && f.recordsIndQueue != []
    requires f.maxNumOfRecords >= 1 && -1 <= f.latestRecordIndex < f.maxNumOfRecords
  {
    var index := NextIndex(f);
    var removed := f.records[index];
    f.(sumOfDurationsUs := f.sumOfDurationsUs - removed.totalDurationUs,
       numOfMissedCycles := f.numOfMissedCycles - if removed.isMissedCycle then 1 else 0,
       numOfFrameFPSJitters := f.numOfFrameFPSJitters - if removed.isFPSJitter then 1 else 0,
       numOfFrames := f.numOfFrames - 1,
       recordsIndQueue := if f.recordsIndQueue[0] == index then f.recordsIndQueue[1..] else f.recordsIndQueue)
  }

  /** The queue without the indexes at its back whose records are not longer than d. */
  function PopShorter(records: seq<CycleRecord>, queue: seq<int>, d: int): (q: seq<int>)
    requires forall i :: 0 <= i < |queue| ==> 0 <= queue[i] < |records|
    ensures q <= queue
  {
    if queue != [] && records[queue[|queue| - 1]].totalDurationUs <= d then PopShorter(records, queue[..|queue| - 1], d)
    else queue
  }

  /** Writing a record into the slot after the latest one. */
  function Append(f: Fields, r: CycleRecord): Fields
    requires f.maxNumOfRecords >= 1 && |f.records| == f.maxNumOfRecords && f.numOfFrames >= 0
    requires -1 <= f.latestRecordIndex < f.maxNumOfRecords
    requires forall i :: 0 <= i < |f.recordsIndQueue| ==> 0 <= f.recordsIndQueue[i] < |f.records|
  {
    var index := NextIndex(f);
    var records := f.records[index := r];
    var sum := f.sumOfDurationsUs + r.totalDurationUs;
    f.(preLastRecordIndex := f.latestRecordIndex,
       latestRecordIndex := index,
       records := records,
       numOfFrames := f.numOfFrames + 1,
       numOfMissedCycles := f.numOfMissedCycles + if r.isMissedCycle then 1 else 0,
       numOfFrameFPSJitters := f.numOfFrameFPSJitters + if r.isFPSJitter then 1 else 0,
       recordsIndQueue := PopShorter(records, f.recordsIndQueue, r.totalDurationUs) + [index],
       sumOfDurationsUs := sum,
       avgDurationUs := TruncDiv(sum, f.numOfFrames + 1))
  }

  function Reset(f: Fields): Fields {
    f.(avgDurationUs := 0, lastStartTimeNs := 0, latestRecordIndex := -1, numOfMissedCycles := 0,
       numOfFrames := 0, sumOfDurationsUs := 0, recordsIndQueue := [])
  }

  function New(maxRecords: nat, factor: real): Fields {
    Fields(maxRecords, factor, seq(maxRecords, _ => CycleRecord(0, 0, false, false)), [],
           0, 0, -1, -1, 0, 0, 0, 0, 0, 0)
  }

  // ---------------------------------------------------------------- removing

  /** The index to remove is the one of the oldest record. */
  lemma {:induction false} RemovedIndex(f: Fields, h: seq<CycleRecord>)
    requires RingHolds(f, h) && |h| >= f.maxNumOfRecords
    ensures var lo := |h| - f.maxNumOfRecords;
            NextIndex(f) == Slot(lo, f.maxNumOfRecords) && f.records[NextIndex(f)] == h[lo]
  {
    NextSlot(|h| - 1, f.maxNumOfRecords);
    SlotBack(|h|, f.maxNumOfRecords, f.maxNumOfRecords);
  }

  lemma {:induction false} RemoveKeepsTotals(f: Fields, p: Past)
    requires f.maxNumOfRecords >= 1 && |f.records| == f.maxNumOfRecords && f.recordsIndQueue != []
    requires -1 <= f.latestRecordIndex < f.maxNumOfRecords
    requires p.oldest < |p.history| && TotalsHold(f, p) && f.records[NextIndex(f)] == p.history[p.oldest]
    ensures TotalsHold(RemoveOldest(f), p.(oldest := p.oldest + 1))
  {
    var w := p.history[p.oldest..];
    TotalsOfTail(w);
    assert w[1..] == p.history[p.oldest + 1..];
  }

  ghost function WithoutOldest(positions: seq<nat>, lo: nat): seq<nat>
    requires positions != []
  {
    if positions[0] == lo then positions[1..] else positions
  }

  /** Comparing ring indexes tells whether the front of the queue is the oldest position. */
  lemma {:induction false} FrontIsOldest(queue: seq<int>, pos: seq<nat>, lo: nat, k: nat)
    requires k >= 1 && pos != [] && lo <= pos[0] < lo + k && IndexesOf(queue, pos, k)
    ensures queue[0] == Slot(lo, k) <==> pos[0] == lo
    ensures IndexesOf(if queue[0] == Slot(lo, k) then queue[1..] else queue, WithoutOldest(pos, lo), k)
  {
    if pos[0] != lo {
      SlotsDiffer(lo, pos[0], k);
    }
  }

  lemma {:induction false} RemoveKeepsQueue(f: Fields, p: Past, index: int)
    requires f.maxNumOfRecords >= 1 && p.oldest < |p.history| <= p.oldest + f.maxNumOfRecords
    requires QueueHolds(f, p) && index == Slot(p.oldest, f.maxNumOfRecords)
    ensures p.positions != [] && f.recordsIndQueue != []
    ensures Descending(p.history, p.oldest + 1, WithoutOldest(p.positions, p.oldest))
    ensures IndexesOf(if f.recordsIndQueue[0] == index then f.recordsIndQueue[1..] else f.recordsIndQueue,
                      WithoutOldest(p.positions, p.oldest), f.maxNumOfRecords)
  {
    DropOldest(p.history, p.oldest, p.positions);
    FrontIsOldest(f.recordsIndQueue, p.positions, p.oldest, f.maxNumOfRecords);
  }

  /** The ring's meaning depends on three fields only. */
  lemma {:induction false} RingOf(f: Fields, f': Fields, h: seq<CycleRecord>)
    requires RingHolds(f, h)
    requires f'.maxNumOfRecords == f.maxNumOfRecords && f'.records == f.records && f'.latestRecordIndex == f.latestRecordIndex
    ensures RingHolds(f', h)
  {
  }

  lemma {:induction false} RemoveOldestDescribes(f: Fields, p: Past) returns (p': Past)
    requires Describes(f, p) && f.numOfFrames >= f.maxNumOfRecords
    ensures f.recordsIndQueue != []
    ensures Describes(RemoveOldest(f), p') && p' == p.(oldest := p.oldest + 1, positions := p'.positions)
  {
    RemovedIndex(f, p.history);
    p' := RemoveOldestQueue(f, p);
    var f' := RemoveOldest(f);
    assert TotalsHold(f', p') by {
      RemoveKeepsTotals(f, p);
    }
    assert RingHolds(f', p'.history) by {
      RingOf(f, f', p.history);
    }
  }

  lemma {:induction false} RemoveOldestQueue(f: Fields, p: Past) returns (p': Past)
    requires f.maxNumOfRecords >= 1 && |f.records| == f.maxNumOfRecords && -1 <= f.latestRecordIndex < f.maxNumOfRecords
    requires p.oldest < |p.history| <= p.oldest + f.maxNumOfRecords
    requires QueueHolds(f, p) && NextIndex(f) == Slot(p.oldest, f.maxNumOfRecords)
    ensures f.recordsIndQueue != []
    ensures p' == p.(oldest := p.oldest + 1, positions := p'.positions) && QueueHolds(RemoveOldest(f), p')
  {
    RemoveKeepsQueue(f, p, NextIndex(f));
    p' := p.(oldest := p.oldest + 1, positions := WithoutOldest(p.positions, p.oldest));
  }

  // ---------------------------------------------------------------- appending

  lemma {:induction false} AppendedIndex(f: Fields, h: seq<CycleRecord>)
    requires RingHolds(f, h)
    ensures NextIndex(f) == Slot(|h|, f.maxNumOfRecords)
  {
    if h != [] {
      NextSlot(|h| - 1, f.maxNumOfRecords);
    }
  }

  lemma {:induction false} WriteKeepsRing(f: Fields, h: seq<CycleRecord>, r: CycleRecord)
    requires RingHolds(f, h)
    ensures NextIndex(f) == Slot(|h|, f.maxNumOfRecords)
    ensures RingHolds(f.(latestRecordIndex := NextIndex(f), records := f.records[NextIndex(f) := r]), h + [r])
  {
    AppendedIndex(f, h);
    var k := f.maxNumOfRecords;
    var f' := f.(latestRecordIndex := NextIndex(f), records := f.records[NextIndex(f) := r]);
    AllSlotsDiffer(if |h| < k then 0 else |h| - k + 1, |h|, k);
    forall j {:trigger (h + [r])[j]} | 0 <= j < |h + [r]| && |h + [r]| <= j + k
      ensures f'.records[Slot(j, k)] == (h + [r])[j]
    {
      if j < |h| {
        assert (h + [r])[j] == h[j];
      }
    }
  }

  /** Each queued index reads the record of its queued position. */
  ghost predicate Reads(records: seq<CycleRecord>, queue: seq<int>, h: seq<CycleRecord>, pos: seq<nat>) {
    && |queue| == |pos|
    && forall i :: 0 <= i < |pos| ==> 0 <= queue[i] < |records| && pos[i] < |h| && records[queue[i]] == h[pos[i]]
  }

  lemma {:induction false} QueueReads(f: Fields, h: seq<CycleRecord>, pos: seq<nat>, lo: nat)
    requires RingHolds(f, h) && IndexesOf(f.recordsIndQueue, pos, f.maxNumOfRecords)
    requires |h| <= lo + f.maxNumOfRecords && forall i :: 0 <= i < |pos| ==> lo <= pos[i] < |h|
    ensures Reads(f.records, f.recordsIndQueue, h, pos)
  {
    forall i | 0 <= i < |pos|
      ensures f.records[f.recordsIndQueue[i]] == h[pos[i]]
    {
      assert h[pos[i]] == h[pos[i]];
    }
  }

  /** Writing the new record disturbs no queued index. */
  lemma {:induction false} QueueStillReads(f: Fields, h: seq<CycleRecord>, pos: seq<nat>, lo: nat, r: CycleRecord)
    requires RingHolds(f, h) && IndexesOf(f.recordsIndQueue, pos, f.maxNumOfRecords)
    requires |h| < lo + f.maxNumOfRecords && forall i :: 0 <= i < |pos| ==> lo <= pos[i] < |h|
    ensures Reads(f.records[NextIndex(f) := r], f.recordsIndQueue, h, pos)
  {
    AppendedIndex(f, h);
    QueueReads(f, h, pos, lo);
    AllSlotsDiffer(lo, |h|, f.maxNumOfRecords);
  }

  /** What PopShorter keeps, and that what it drops is not longer. */
  lemma {:induction false} PopShorterKeeps(records: seq<CycleRecord>, queue: seq<int>, h: seq<CycleRecord>, pos: seq<nat>, d: int) returns (kept: nat)
    requires Reads(records, queue, h, pos)
    ensures kept <= |pos| && PopShorter(records, queue, d) == queue[..kept]
    ensures forall i :: kept <= i < |pos| ==> h[pos[i]].totalDurationUs <= d
    ensures kept > 0 ==> h[pos[kept - 1]].totalDurationUs > d
    decreases |queue|
  {
    var n := |queue|;
    if queue != [] && records[queue[n - 1]].totalDurationUs <= d {
      kept := PopShorterKeeps(records, queue[..n - 1], h, pos[..n - 1], d);
    } else {
      kept := n;
    }
  }

  lemma {:induction false} AppendKeepsQueue(f: Fields, p: Past, r: CycleRecord) returns (pos': seq<nat>)
    requires Describes(f, p) && |p.history| < p.oldest + f.maxNumOfRecords
    ensures forall i :: 0 <= i < |f.recordsIndQueue| ==> 0 <= f.recordsIndQueue[i] < |f.records|
    ensures QueueHolds(Append(f, r), p.(history := p.history + [r], positions := pos'))
  {
    QueueStillReads(f, p.history, p.positions, p.oldest, r);
    AppendedIndex(f, p.history);
    var records := f.records[NextIndex(f) := r];
    var kept := PopShorterKeeps(records, f.recordsIndQueue, p.history, p.positions, r.totalDurationUs);
    PushNewest(p.history, p.oldest, p.positions, kept, r);
    pos' := p.positions[..kept] + [|p.history|];
  }

  lemma {:induction false} AppendKeepsTotals(f: Fields, p: Past, r: CycleRecord, f': Fields, p': Past)
    requires p.oldest <= |p.history| && TotalsHold(f, p)
    requires p'.history == p.history + [r] && p'.oldest == p.oldest && p'.jitterBase == p.jitterBase
    requires f'.numOfFrames == f.numOfFrames + 1
    requires f'.sumOfDurationsUs == f.sumOfDurationsUs + r.totalDurationUs
    requires f'.numOfMissedCycles == f.numOfMissedCycles + if r.isMissedCycle then 1 else 0
    requires f'.numOfFrameFPSJitters == f.numOfFrameFPSJitters + if r.isFPSJitter then 1 else 0
    ensures TotalsHold(f', p')
  {
    var w := p.history[p.oldest..];
    TotalsOfSnoc(w, r);
    assert p'.history[p'.oldest..] == w + [r];
  }

  lemma {:induction false} AppendDescribes(f: Fields, p: Past, r: CycleRecord) returns (p': Past)
    requires Describes(f, p) && |p.history| < p.oldest + f.maxNumOfRecords
    ensures forall i :: 0 <= i < |f.recordsIndQueue| ==> 0 <= f.recordsIndQueue[i] < |f.records|
    ensures Describes(Append(f, r), p') && p' == p.(history := p.history + [r], positions := p'.positions)
  {
    var pos' := AppendKeepsQueue(f, p, r);
    p' := p.(history := p.history + [r], positions := pos');
    WriteKeepsRing(f, p.history, r);
    var f' := Append(f, r);
    AppendKeepsTotals(f, p, r, f', p');
    assert RingHolds(f', p'.history);
  }

  // ---------------------------------------------------------------- one reported frame

  /** What the code needs in order not to index outside its containers. */
  ghost predicate Usable(f: Fields) {
    && f.maxNumOfRecords >= 1 && |f.records| == f.maxNumOfRecords && 0 <= f.numOfFrames <= f.maxNumOfRecords
    && -1 <= f.latestRecordIndex < f.maxNumOfRecords
    && (f.numOfFrames > 0 ==> f.latestRecordIndex >= 0)
    && (f.numOfFrames >= f.maxNumOfRecords ==> f.recordsIndQueue != [])
    && forall i :: 0 <= i < |f.recordsIndQueue| ==> 0 <= f.recordsIndQueue[i] < |f.records|
  }

  function MakeRoom(f: Fields): (f': Fields)
    requires Usable(f)
    ensures Usable(f') && f'.numOfFrames < f.maxNumOfRecords
    ensures f'.records == f.records && f'.latestRecordIndex == f.latestRecordIndex
  {
    if f.numOfFrames >= f.maxNumOfRecords then RemoveOldest(f) else f
  }

  function StartTime(d: WorkDuration): int {
    d.timeStampNanos - d.durationNanos
  }

  function StartInterval(f: Fields, d: WorkDuration): int {
    if f.numOfFrames > 0 then TruncDiv(StartTime(d) - f.lastStartTimeNs, 1000) else 0
  }

  /** The slot three frames before the given one. */
  function ThreeBack(f: Fields, index: int): int {
    if index - TOTAL_FRAMES_FOR_FPS_CHECK < 0 then index - TOTAL_FRAMES_FOR_FPS_CHECK + f.maxNumOfRecords
    else index - TOTAL_FRAMES_FOR_FPS_CHECK
  }

  predicate IsJitter(f: Fields, interval: int, game: bool) {
    game && f.addedFramesForFPSCheck >= TOTAL_FRAMES_FOR_FPS_CHECK
    && interval as real > 1.4 * (f.latestStartIntervalSumUs as real) / 3.0
  }

  /** latestStartIntervalSumUs and addedFramesForFPSCheck after a frame. */
  function FpsCheck(f: Fields, interval: int, game: bool): (int, int)
    requires Usable(f) && (game ==> f.maxNumOfRecords >= TOTAL_FRAMES_FOR_FPS_CHECK)
  {
    if !game then (0, 0)
    else if f.addedFramesForFPSCheck < TOTAL_FRAMES_FOR_FPS_CHECK then
      if interval > 0 then (f.latestStartIntervalSumUs + interval, f.addedFramesForFPSCheck + 1)
      else (f.latestStartIntervalSumUs, f.addedFramesForFPSCheck)
    else
      (f.latestStartIntervalSumUs + interval - f.records[ThreeBack(f, NextIndex(f))].startIntervalUs, f.addedFramesForFPSCheck)
  }

  function NewRecord(f: Fields, d: WorkDuration, targetNs: int, game: bool): CycleRecord
    requires Usable(f)
  {
    var interval := StartInterval(MakeRoom(f), d);
    var durationUs := TruncDiv(d.durationNanos, 1000);
    CycleRecord(interval, durationUs, Missed(durationUs, targetNs, f.jankCheckTimeFactor), IsJitter(f, interval, game))
  }

  /** The body of the loop of addReportedDurations. */
  function AddDuration(f: Fields, d: WorkDuration, targetNs: int, game: bool): (f': Fields)
    requires Usable(f) && (game ==> f.maxNumOfRecords >= TOTAL_FRAMES_FOR_FPS_CHECK)
    ensures Usable(f') && f'.maxNumOfRecords == f.maxNumOfRecords && f'.jankCheckTimeFactor == f.jankCheckTimeFactor
  {
    var room := MakeRoom(f);
    var r := NewRecord(f, d, targetNs, game);
    var (sum, added) := FpsCheck(room, r.startIntervalUs, game);
    Append(room, r).(lastStartTimeNs := StartTime(d), latestStartIntervalSumUs := sum, addedFramesForFPSCheck := added)
  }

  /** What the frame adds to the report's metrics. */
  function MetricsAfter(m: FrameTimingMetrics, f: Fields, d: WorkDuration, targetNs: int, game: bool): FrameTimingMetrics
    requires Usable(f) && (game ==> f.maxNumOfRecords >= TOTAL_FRAMES_FOR_FPS_CHECK)
  {
    var r := NewRecord(f, d, targetNs, game);
    var f' := AddDuration(f, d, targetNs, game);
    FrameTimingMetrics(
      CountFrame(m.buckets, r.totalDurationUs, r.isMissedCycle),
      if game then CountGameFrame(m.game, r.startIntervalUs, PreviousInterval(f')) else m.game)
  }

  function PreviousInterval(f: Fields): Option<int> {
    if f.numOfFrames > 2 && 0 <= f.preLastRecordIndex < |f.records| then Some(f.records[f.preLastRecordIndex].startIntervalUs)
    else None
  }

  lemma {:induction false} ValidIsUsable(f: Fields, p: Past)
    requires Describes(f, p)
    ensures Usable(f)
  {
    if p.oldest < |p.history| {
      assert Dominated(p.history, p.positions, p.oldest);
    }
  }

  /** The fields that Describes does not look at. */
  lemma {:induction false} OtherFields(f: Fields, p: Past, start: int, sum: int, added: int)
    requires Describes(f, p)
    ensures Describes(f.(lastStartTimeNs := start, latestStartIntervalSumUs := sum, addedFramesForFPSCheck := added), p)
  {
  }

  lemma {:induction false} MakeRoomDescribes(f: Fields, p: Past) returns (p': Past)
    requires Describes(f, p)
    ensures Usable(f)
    ensures Describes(MakeRoom(f), p') && p'.history == p.history && p'.jitterBase == p.jitterBase
    ensures |p.history| < p'.oldest + f.maxNumOfRecords
    ensures p'.oldest == if f.numOfFrames >= f.maxNumOfRecords then p.oldest + 1 else p.oldest
  {
    ValidIsUsable(f, p);
    if f.numOfFrames >= f.maxNumOfRecords {
      p' := RemoveOldestDescribes(f, p);
    } else {
      p' := p;
    }
  }

  lemma {:induction false} FinishAdd(f: Fields, d: WorkDuration, targetNs: int, game: bool, p: Past)
    requires Usable(f) && (game ==> f.maxNumOfRecords >= TOTAL_FRAMES_FOR_FPS_CHECK)
    requires Describes(Append(MakeRoom(f), NewRecord(f, d, targetNs, game)), p)
    requires p.oldest == if |p.history| <= f.maxNumOfRecords then 0 else |p.history| - f.maxNumOfRecords
    ensures Valid(AddDuration(f, d, targetNs, game), p)
  {
    var room := MakeRoom(f);
    var r := NewRecord(f, d, targetNs, game);
    var (sum, added) := FpsCheck(room, r.startIntervalUs, game);
    OtherFields(Append(room, r), p, StartTime(d), sum, added);
  }

  /** A reported frame extends the history by its record and keeps everything right. */
  lemma {:induction false} AddDurationValid(f: Fields, p: Past, d: WorkDuration, targetNs: int, game: bool) returns (p': Past)
    requires Valid(f, p) && (game ==> f.maxNumOfRecords >= TOTAL_FRAMES_FOR_FPS_CHECK)
    ensures Usable(f)
    ensures Valid(AddDuration(f, d, targetNs, game), p')
    ensures p'.history == p.history + [NewRecord(f, d, targetNs, game)] && p'.jitterBase == p.jitterBase
  {
    var p1 := MakeRoomDescribes(f, p);
    var room := MakeRoom(f);
    var r := NewRecord(f, d, targetNs, game);
    p' := AppendDescribes(room, p1, r);
    FinishAdd(f, d, targetNs, game, p');
  }

  // ---------------------------------------------------------------- queries

  function MaxDuration(f: Fields): Option<int>
    requires Usable(f)
  {
    if f.recordsIndQueue == [] then None else Some(f.records[f.recordsIndQueue[0]].totalDurationUs)
  }

  function AvgDuration(f: Fields): Option<int> {
    if f.numOfFrames <= 0 then None else Some(f.avgDurationUs)
  }

  function Before(index: int, k: nat): int {
    if index == 0 then k - 1 else index - 1
  }

  /** The start intervals the low-frame-rate test looks at: latest, second and third latest slot. */
  function LatestIntervals(f: Fields): (int, int, int)
    requires Usable(f) && f.latestRecordIndex >= 0
  {
    var i2 := Before(f.latestRecordIndex, f.maxNumOfRecords);
    var i3 := Before(i2, f.maxNumOfRecords);
    (f.records[f.latestRecordIndex].startIntervalUs, f.records[i2].startIntervalUs, f.records[i3].startIntervalUs)
  }

  predicate IsLowFrameRate(f: Fields, fps: int)
    requires Usable(f)
  {
    f.numOfFrames >= 3 &&
    var (a, b, c) := LatestIntervals(f);
    LowRate(a, fps) && LowRate(b, fps) && LowRate(c, fps)
  }

  /** The deque front is the true maximum of the window. */
  lemma {:induction false} MaxIsExact(f: Fields, p: Past)
    requires Valid(f, p)
    ensures Usable(f)
    ensures match MaxDuration(f)
            case None => Last(p.history, f.maxNumOfRecords) == []
            case Some(m) => IsMaxDuration(Last(p.history, f.maxNumOfRecords), m)
  {
    ValidIsUsable(f, p);
    assert p.history[p.oldest..] == Last(p.history, f.maxNumOfRecords);
    if p.oldest < |p.history| {
      FrontIsMax(p.history, p.oldest, p.positions);
      QueueReads(f, p.history, p.positions, p.oldest);
    }
  }

  /** Count, sum, truncated mean and missed cycles are those of the window. */
  lemma {:induction false} TotalsAreExact(f: Fields, p: Past)
    requires Valid(f, p)
    ensures var w := Last(p.history, f.maxNumOfRecords);
            && f.numOfFrames == |w| && f.sumOfDurationsUs == TotalDuration(w)
            && AvgDuration(f) == (if w == [] then None else Some(TruncDiv(TotalDuration(w), |w|)))
            && f.numOfMissedCycles == MissedCount(w)
            && f.numOfFrameFPSJitters - p.jitterBase == JitterCount(w)
  {
    assert p.history[p.oldest..] == Last(p.history, f.maxNumOfRecords);
  }

  /** Where the last three records are in the ring. */
  lemma {:induction false} RingEnds(f: Fields, h: seq<CycleRecord>)
    requires RingHolds(f, h) && |h| >= 3 && f.maxNumOfRecords >= 3
    ensures var i := f.latestRecordIndex;
            var j := Before(i, f.maxNumOfRecords);
            && 0 <= i < |f.records| && f.records[i] == h[|h| - 1]
            && 0 <= j < |f.records| && f.records[j] == h[|h| - 2]
            && 0 <= Before(j, f.maxNumOfRecords) < |f.records| && f.records[Before(j, f.maxNumOfRecords)] == h[|h| - 3]
  {
    var n, k := |h|, f.maxNumOfRecords;
    SlotBack(n - 1, 1, k);
    SlotBack(n - 2, 1, k);
    assert h[n - 1] == h[n - 1] && h[n - 2] == h[n - 2] && h[n - 3] == h[n - 3];
  }

  lemma {:induction false} RingThreeBack(f: Fields, h: seq<CycleRecord>)
    requires RingHolds(f, h) && |h| >= 3 && f.maxNumOfRecords >= 3
    ensures 0 <= ThreeBack(f, NextIndex(f)) < |f.records| && f.records[ThreeBack(f, NextIndex(f))] == h[|h| - 3]
  {
    AppendedIndex(f, h);
    SlotBack(|h|, 3, f.maxNumOfRecords);
    assert h[|h| - 3] == h[|h| - 3];
  }

  /** Those are the last three frames of the window. */
  lemma {:induction false} LatestIntervalsAreExact(f: Fields, p: Past)
    requires Valid(f, p) && f.numOfFrames >= 3
    ensures Usable(f) && f.latestRecordIndex >= 0
    ensures var w := Last(p.history, f.maxNumOfRecords);
            |w| >= 3 && LatestIntervals(f)
                        == (w[|w| - 1].startIntervalUs, w[|w| - 2].startIntervalUs, w[|w| - 3].startIntervalUs)
  {
    ValidIsUsable(f, p);
    RingEnds(f, p.history);
    LastThree(p.history, f.maxNumOfRecords);
  }

  lemma {:induction false} LastThree(h: seq<CycleRecord>, k: nat)
    requires |h| >= 3 && k >= 3
    ensures var w := Last(h, k);
            |w| >= 3 && w[|w| - 1] == h[|h| - 1] && w[|w| - 2] == h[|h| - 2] && w[|w| - 3] == h[|h| - 3]
  {
  }

  /** The low-frame-rate test holds exactly when the last three frames all came that late. */
  lemma {:induction false} LowFrameRateIsExact(f: Fields, p: Past, fps: int)
    requires Valid(f, p)
    ensures Usable(f)
    ensures var w := Last(p.history, f.maxNumOfRecords);
            IsLowFrameRate(f, fps) <==>
              && |w| >= 3
              && LowRate(w[|w| - 1].startIntervalUs, fps)
              && LowRate(w[|w| - 2].startIntervalUs, fps)
              && LowRate(w[|w| - 3].startIntervalUs, fps)
  {
    ValidIsUsable(f, p);
    if f.numOfFrames >= 3 {
      LatestIntervalsAreExact(f, p);
    }
  }

  /** While game metrics stay on, the running interval sum moves exactly as the sum of the last three
      intervals does: it gains the new interval and loses the one three frames back. */
  lemma {:induction false} FpsSumTracksLastThree(f: Fields, p: Past, interval: int)
    requires Valid(f, p) && f.maxNumOfRecords >= TOTAL_FRAMES_FOR_FPS_CHECK
    requires f.addedFramesForFPSCheck >= TOTAL_FRAMES_FOR_FPS_CHECK && |p.history| >= 3
    ensures Usable(f)
    ensures FpsCheck(MakeRoom(f), interval, true).0
         == f.latestStartIntervalSumUs + interval - p.history[|p.history| - 3].startIntervalUs
  {
    ValidIsUsable(f, p);
    RingThreeBack(f, p.history);
    var room := MakeRoom(f);
    assert room.maxNumOfRecords == f.maxNumOfRecords && NextIndex(room) == NextIndex(f);
    assert ThreeBack(room, NextIndex(room)) == ThreeBack(f, NextIndex(f));
  }

  // ---------------------------------------------------------------- every sequence of reports and resets

  datatype Op = Report(durations: seq<WorkDuration>, targetNs: int, game: bool) | ResetRecords

  ghost predicate Allowed(op: Op, k: nat) {
    op.Report? && op.game ==> k >= TOTAL_FRAMES_FOR_FPS_CHECK
  }

  /** A frame as reported: its times and the target it was reported against. */
  datatype Frame = Frame(duration: WorkDuration, targetNs: int)

  /** The frames reported since the last reset. */
  ghost function Frames(ops: seq<Op>): seq<Frame> {
    if ops == [] then [] else FramesAfter(Frames(ops[..|ops| - 1]), ops[|ops| - 1])
  }

  ghost function FramesAfter(frames: seq<Frame>, op: Op): seq<Frame> {
    match op
    case ResetRecords => []
    case Report(ds, t, _) => frames + FramesOf(ds, t)
  }

  ghost function FramesOf(ds: seq<WorkDuration>, targetNs: int): seq<Frame> {
    seq(|ds|, i requires 0 <= i < |ds| => Frame(ds[i], targetNs))
  }

  /** h is the record of exactly these frames: their durations, their distances and whether they
      missed their targets.  A window of one frame knows no distances. */
  ghost predicate RecordOf(h: seq<CycleRecord>, frames: seq<Frame>, k: nat, factor: real) {
    |h| == |frames| && forall j :: 0 <= j < |h| ==> IsRecord(h[j], frames, j, k, factor)
  }

  ghost predicate IsRecord(r: CycleRecord, frames: seq<Frame>, j: nat, k: nat, factor: real)
    requires j < |frames|
  {
    && r.totalDurationUs == TruncDiv(frames[j].duration.durationNanos, 1000)
    && r.isMissedCycle == Missed(r.totalDurationUs, frames[j].targetNs, factor)
    && r.startIntervalUs ==
         if j == 0 || k == 1 then 0
         else TruncDiv(StartTime(frames[j].duration) - StartTime(frames[j - 1].duration), 1000)
  }

  ghost predicate Tracks(f: Fields, p: Past, frames: seq<Frame>) {
    && Valid(f, p)
    && RecordOf(p.history, frames, f.maxNumOfRecords, f.jankCheckTimeFactor)
    && (frames != [] ==> f.lastStartTimeNs == StartTime(frames[|frames| - 1].duration))
  }

  ghost function AddAll(f: Fields, ds: seq<WorkDuration>, targetNs: int, game: bool): (f': Fields)
    requires Usable(f) && (game ==> f.maxNumOfRecords >= TOTAL_FRAMES_FOR_FPS_CHECK)
    ensures Usable(f') && f'.maxNumOfRecords == f.maxNumOfRecords && f'.jankCheckTimeFactor == f.jankCheckTimeFactor
  {
    if ds == [] then f
    else
      AddDuration(AddAll(f, ds[..|ds| - 1], targetNs, game), ds[|ds| - 1], targetNs, game)
  }

  ghost function AllMetrics(m: FrameTimingMetrics, f: Fields, ds: seq<WorkDuration>, targetNs: int, game: bool): FrameTimingMetrics
    requires Usable(f) && (game ==> f.maxNumOfRecords >= TOTAL_FRAMES_FOR_FPS_CHECK)
  {
    if ds == [] then m
    else
      var n := |ds| - 1;
      MetricsAfter(AllMetrics(m, f, ds[..n], targetNs, game), AddAll(f, ds[..n], targetNs, game), ds[n], targetNs, game)
  }

  ghost function Apply(f: Fields, op: Op): (f': Fields)
    requires Usable(f) && Allowed(op, f.maxNumOfRecords)
    ensures Usable(f') && f'.maxNumOfRecords == f.maxNumOfRecords && f'.jankCheckTimeFactor == f.jankCheckTimeFactor
  {
    match op
    case ResetRecords => Reset(f)
    case Report(ds, t, game) => AddAll(f, ds, t, game)
  }

  ghost function Run(k: nat, factor: real, ops: seq<Op>): (f: Fields)
    requires k >= 1 && forall i :: 0 <= i < |ops| ==> Allowed(ops[i], k)
    ensures Usable(f) && f.maxNumOfRecords == k && f.jankCheckTimeFactor == factor
  {
    if ops == [] then New(k, factor) else Apply(Run(k, factor, ops[..|ops| - 1]), ops[|ops| - 1])
  }

  lemma {:induction false} AddDurationTracks(f: Fields, p: Past, frames: seq<Frame>, fr: Frame, game: bool) returns (p': Past)
    requires Tracks(f, p, frames) && (game ==> f.maxNumOfRecords >= TOTAL_FRAMES_FOR_FPS_CHECK)
    ensures Usable(f) && Tracks(AddDuration(f, fr.duration, fr.targetNs, game), p', frames + [fr])
  {
    p' := AddDurationValid(f, p, fr.duration, fr.targetNs, game);
    assert RecordOf(p'.history, frames + [fr], f.maxNumOfRecords, f.jankCheckTimeFactor) by {
      NewRecordIsRecord(f, p, frames, fr, game);
      RecordSnoc(p.history, NewRecord(f, fr.duration, fr.targetNs, game), frames, fr, f.maxNumOfRecords, f.jankCheckTimeFactor);
    }
  }

  lemma {:induction false} NewRecordIsRecord(f: Fields, p: Past, frames: seq<Frame>, fr: Frame, game: bool)
    requires Tracks(f, p, frames) && Usable(f) && (game ==> f.maxNumOfRecords >= TOTAL_FRAMES_FOR_FPS_CHECK)
    ensures IsRecord(NewRecord(f, fr.duration, fr.targetNs, game), frames + [fr], |frames|, f.maxNumOfRecords, f.jankCheckTimeFactor)
  {
    var r := NewRecord(f, fr.duration, fr.targetNs, game);
    assert r.startIntervalUs == if frames == [] || f.maxNumOfRecords == 1 then 0
                                else TruncDiv(StartTime(fr.duration) - f.lastStartTimeNs, 1000);
  }

  lemma {:induction false} RecordSnoc(h: seq<CycleRecord>, r: CycleRecord, frames: seq<Frame>, fr: Frame, k: nat, factor: real)
    requires RecordOf(h, frames, k, factor)
    requires IsRecord(r, frames + [fr], |frames|, k, factor)
    ensures RecordOf(h + [r], frames + [fr], k, factor)
  {
    forall j | 0 <= j < |h| ensures IsRecord((h + [r])[j], frames + [fr], j, k, factor) {
      assert IsRecord(h[j], frames, j, k, factor);
    }
  }

  lemma {:induction false} FramesOfNone(frames: seq<Frame>, targetNs: int)
    ensures frames + FramesOf([], targetNs) == frames
  {
  }

  lemma {:induction false} FramesOfSnoc(frames: seq<Frame>, ds: seq<WorkDuration>, targetNs: int)
    requires ds != []
    ensures frames + FramesOf(ds, targetNs)
         == frames + FramesOf(ds[..|ds| - 1], targetNs) + [Frame(ds[|ds| - 1], targetNs)]
  {
  }

  lemma {:induction false} AddAllTracks(f: Fields, p: Past, frames: seq<Frame>, ds: seq<WorkDuration>, targetNs: int, game: bool) returns (p': Past)
    requires Tracks(f, p, frames) && (game ==> f.maxNumOfRecords >= TOTAL_FRAMES_FOR_FPS_CHECK)
    ensures Usable(f) && Tracks(AddAll(f, ds, targetNs, game), p', frames + FramesOf(ds, targetNs))
    decreases |ds|
  {
    ValidIsUsable(f, p);
    if ds == [] {
      p' := p;
      FramesOfNone(frames, targetNs);
    } else {
      var n := |ds| - 1;
      var p1 := AddAllTracks(f, p, frames, ds[..n], targetNs, game);
      var fr := Frame(ds[n], targetNs);
      FramesOfSnoc(frames, ds, targetNs);
      p' := AddDurationTracks(AddAll(f, ds[..n], targetNs, game), p1, frames + FramesOf(ds[..n], targetNs), fr, game);
    }
  }

  lemma {:induction false} NewTracks(k: nat, factor: real)
    requires k >= 1
    ensures Tracks(New(k, factor), Past([], 0, [], 0), [])
  {
    EmptyTracks(New(k, factor));
  }

  /** Fields without any frame; only the jitter count may be left over. */
  lemma {:induction false} EmptyTracks(f: Fields)
    requires f.maxNumOfRecords >= 1 && |f.records| == f.maxNumOfRecords && f.recordsIndQueue == []
    requires f.latestRecordIndex == -1 && f.numOfFrames == 0 && f.sumOfDurationsUs == 0 && f.numOfMissedCycles == 0
    ensures Tracks(f, Past([], 0, [], f.numOfFrameFPSJitters), [])
  {
    var p := Past([], 0, [], f.numOfFrameFPSJitters);
    assert TotalsHold(f, p) by {
      assert p.history[0..] == [];
    }
  }

  lemma {:induction false} ApplyTracks(f: Fields, p: Past, frames: seq<Frame>, op: Op) returns (p': Past)
    requires Tracks(f, p, frames) && Allowed(op, f.maxNumOfRecords)
    ensures Usable(f) && Tracks(Apply(f, op), p', FramesAfter(frames, op))
  {
    ValidIsUsable(f, p);
    match op
    case ResetRecords =>
      p' := Past([], 0, [], f.numOfFrameFPSJitters);
      EmptyTracks(Reset(f));
    case Report(ds, t, game) => p' := AddAllTracks(f, p, frames, ds, t, game);
  }

  /** After any sequence of reports and resets the fields describe exactly the frames since the last
      reset; with MaxIsExact, TotalsAreExact and LowFrameRateIsExact, every query answers for the last
      min(n, K) of them. */
  lemma {:induction false} EveryRunTracks(k: nat, factor: real, ops: seq<Op>) returns (p: Past)
    requires k >= 1 && forall i :: 0 <= i < |ops| ==> Allowed(ops[i], k)
    ensures Tracks(Run(k, factor, ops), p, Frames(ops))
    decreases |ops|
  {
    if ops == [] {
      NewTracks(k, factor);
      p := Past([], 0, [], 0);
    } else {
      var n := |ops| - 1;
      var p1 := EveryRunTracks(k, factor, ops[..n]);
      p := ApplyTracks(Run(k, factor, ops[..n]), p1, Frames(ops[..n]), ops[n]);
    }
  }

  // ---------------------------------------------------------------- the interval sum over a run

  /** The start intervals of the last three records. */
  ghost function LastThreeSum(h: seq<CycleRecord>): int
    requires |h| >= 3
  {
    h[|h| - 1].startIntervalUs + h[|h| - 2].startIntervalUs + h[|h| - 3].startIntervalUs
  }

  /** The FPS check is under way, and its running sum is this much more than the last three intervals. */
  ghost predicate FpsOffset(f: Fields, p: Past, offset: int) {
    && Valid(f, p) && f.maxNumOfRecords >= TOTAL_FRAMES_FOR_FPS_CHECK
    && f.addedFramesForFPSCheck >= TOTAL_FRAMES_FOR_FPS_CHECK && |p.history| >= 3
    && f.latestStartIntervalSumUs == offset + LastThreeSum(p.history)
  }

  lemma {:induction false} FrameKeepsOffset(f: Fields, p: Past, d: WorkDuration, targetNs: int, offset: int) returns (p': Past)
    requires FpsOffset(f, p, offset)
    ensures Usable(f) && FpsOffset(AddDuration(f, d, targetNs, true), p', offset)
    ensures p'.history == p.history + [NewRecord(f, d, targetNs, true)]
  {
    p' := AddDurationValid(f, p, d, targetNs, true);
    var r := NewRecord(f, d, targetNs, true);
    FpsSumTracksLastThree(f, p, r.startIntervalUs);
    FpsFieldsAfter(f, d, targetNs);
  }

  /** The FPS fields that a frame leaves. */
  lemma {:induction false} FpsFieldsAfter(f: Fields, d: WorkDuration, targetNs: int)
    requires Usable(f) && f.maxNumOfRecords >= TOTAL_FRAMES_FOR_FPS_CHECK
    requires f.addedFramesForFPSCheck >= TOTAL_FRAMES_FOR_FPS_CHECK
    ensures var f' := AddDuration(f, d, targetNs, true);
            && f'.latestStartIntervalSumUs == FpsCheck(MakeRoom(f), NewRecord(f, d, targetNs, true).startIntervalUs, true).0
            && f'.addedFramesForFPSCheck == f.addedFramesForFPSCheck
  {
  }

  lemma {:induction false} ReportKeepsOffset(f: Fields, p: Past, ds: seq<WorkDuration>, targetNs: int, offset: int) returns (p': Past)
    requires FpsOffset(f, p, offset)
    ensures Usable(f) && FpsOffset(AddAll(f, ds, targetNs, true), p', offset)
    decreases |ds|
  {
    ValidIsUsable(f, p);
    if ds == [] {
      p' := p;
    } else {
      var n := |ds| - 1;
      var p1 := ReportKeepsOffset(f, p, ds[..n], targetNs, offset);
      p' := FrameKeepsOffset(AddAll(f, ds[..n], targetNs, true), p1, ds[n], targetNs, offset);
    }
  }

  /** Over any run of game reports without a reset, the running sum is the sum of the last three
      intervals plus a constant. */
  lemma {:induction false} GameRunKeepsOffset(f: Fields, p: Past, reports: seq<Op>, offset: int) returns (f': Fields, p': Past)
    requires FpsOffset(f, p, offset) && forall i :: 0 <= i < |reports| ==> reports[i].Report? && reports[i].game
    ensures Usable(f) && f' == ApplyAll(f, reports) && FpsOffset(f', p', offset)
    decreases |reports|
  {
    ValidIsUsable(f, p);
    if reports == [] {
      f', p' := f, p;
    } else {
      var n := |reports| - 1;
      var f1, p1 := GameRunKeepsOffset(f, p, reports[..n], offset);
      f' := Apply(f1, reports[n]);
      p' := ReportKeepsOffset(f1, p1, reports[n].durations, reports[n].targetNs, offset);
    }
  }

  ghost function ApplyAll(f: Fields, reports: seq<Op>): (f': Fields)
    requires Usable(f) && forall i :: 0 <= i < |reports| ==> Allowed(reports[i], f.maxNumOfRecords)
    ensures Usable(f') && f'.maxNumOfRecords == f.maxNumOfRecords
  {
    if reports == [] then f else Apply(ApplyAll(f, reports[..|reports| - 1]), reports[|reports| - 1])
  }

  /** ... and a frame is marked a jitter exactly when its interval exceeds 1.4 times a third of that sum. */
  lemma {:induction false} JitterExact(f: Fields, p: Past, d: WorkDuration, targetNs: int, offset: int)
    requires FpsOffset(f, p, offset)
    ensures Usable(f)
    ensures var r := NewRecord(f, d, targetNs, true);
            r.isFPSJitter <==> r.startIntervalUs as real > 1.4 * (offset + LastThreeSum(p.history)) as real / 3.0
  {
    ValidIsUsable(f, p);
  }
}
