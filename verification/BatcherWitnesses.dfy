/**
 Where the promises of the result batcher's callers are needed: what exactly goes wrong without them,
 with runs that show it.
 */
module BatcherWitnesses {
  import opened Basics
  import opened ResultBatch
  import opened ResultBatchConservation
  import opened BatcherRuns
  import opened BatcherTheorems

  // ---------------------------------------------------------------- errors

  /** An error call pops batches from the queue, the last of them the one it was looked up for. */
  ghost predicate PopsUpToItsOwn(s: Batcher, c: Call)
    requires c.target.Some?
  {
    s.head + c.target.value.index < |s.batches| && FlushFront(s, c.target.value.index + 1).head == c.target.value.batch + 1
  }

  /** It does so exactly when its lookup is still current, that is, when no batch has left the queue
      since; otherwise it pops from an empty queue or flushes batches that do not hold its frame. */
  lemma {:induction false} ErrorPopsExactly(s: Batcher, c: Call)
    requires Inv(s) && CallOk(s, c) && IsError(c.event) && c.target.Some?
    ensures PopsUpToItsOwn(s, c) <==> c.target == FindTarget(s, FrameOf(c.event))
    ensures PopsUpToItsOwn(s, c) <==> s.head == c.target.value.batch - c.target.value.index
  {
    FindTargetExact(s, FrameOf(c.event));
  }

  lemma {:induction false} SplitRun(s: Batcher, step: Step, rest: seq<Step>)
    requires Defined(s, step) && Promised(s, step) && Admissible(Next(s, step), rest)
    ensures Admissible(s, [step] + rest) && Exec(s, [step] + rest) == Exec(Next(s, step), rest)
  {
    assert ([step] + rest)[1..] == rest;
  }

  lemma {:induction false} RunSnoc(s: Batcher, steps: seq<Step>, step: Step)
    requires Admissible(s, steps) && Defined(Exec(s, steps), step) && Promised(Exec(s, steps), step)
    ensures Admissible(s, steps + [step]) && Exec(s, steps + [step]) == Next(Exec(s, steps), step)
    decreases |steps|
  {
    if steps == [] {
      SplitRun(s, step, []);
      assert [] + [step] == [step] + [];
    } else {
      RunSnoc(Next(s, steps[0]), steps[1..], step);
      SplitRun(s, steps[0], steps[1..] + [step]);
      assert [steps[0]] + (steps[1..] + [step]) == steps + [step];
    }
  }

  const FirstError := Message(ErrorMsg(7, -1, 1))
  const SecondError := Message(ErrorMsg(8, -1, 1))

  /** The call that both errors of a race make. */
  ghost function RaceCall(e: Event): Call {
    Call(e, Some(Target(0, 0)))
  }

  /** Both errors are looked up before either flushes. */
  const Lookups: seq<Step> := [Begin(0, FirstError), Begin(1, SecondError)]

  ghost function RaceState(batches: seq<Batch>, calls: map<CallId, Call>): Batcher {
    Batcher(batches, 0, [], 1, calls, [], [])
  }

  /** The first batch is that of both errors, and has no streams. */
  ghost predicate RaceBatches(batches: seq<Batch>) {
    && batches != [] && Contains(batches[0], 7) && Contains(batches[0], 8) && batches[|batches| - 1].last >= 8
    && batches[0].bufs == map[]
  }

  lemma {:induction false} FirstBatchFound(s: Batcher, frame: Frame)
    requires s.head == 0 && RaceBatches(s.batches) && 7 <= frame <= 8
    ensures FindTarget(s, frame) == Some(Target(0, 0))
  {
    assert s.batches[0..] == s.batches;
  }

  lemma {:induction false} RaceBegin(batches: seq<Batch>, calls: map<CallId, Call>, id: CallId, e: Event)
    requires RaceBatches(batches) && id !in calls && 7 <= FrameOf(e) <= 8
    ensures Defined(RaceState(batches, calls), Begin(id, e)) && Promised(RaceState(batches, calls), Begin(id, e))
    ensures Next(RaceState(batches, calls), Begin(id, e)) == RaceState(batches, calls[id := RaceCall(e)])
  {
    FirstBatchFound(RaceState(batches, calls), FrameOf(e));
  }

  ghost function BothCalls(): map<CallId, Call> {
    map[0 := RaceCall(FirstError), 1 := RaceCall(SecondError)]
  }

  lemma {:induction false} RaceLookups(batches: seq<Batch>)
    requires RaceBatches(batches)
    ensures Admissible(RaceState(batches, map[]), Lookups)
    ensures Exec(RaceState(batches, map[]), Lookups) == RaceState(batches, BothCalls())
  {
    RaceBegin(batches, map[], 0, FirstError);
    RaceBegin(batches, map[][0 := RaceCall(FirstError)], 1, SecondError);
    assert map[][0 := RaceCall(FirstError)][1 := RaceCall(SecondError)] == BothCalls();
    SplitRun(RaceState(batches, map[][0 := RaceCall(FirstError)]), Begin(1, SecondError), []);
    SplitRun(RaceState(batches, map[]), Begin(0, FirstError), [Begin(1, SecondError)] + []);
    assert [Begin(0, FirstError)] + ([Begin(1, SecondError)] + []) == Lookups;
  }

  /** After the first flush: the other error's call is still aimed at the batch that is gone. */
  ghost predicate FirstIsGone(s: Batcher, batches: seq<Batch>)
    requires |batches| >= 1
  {
    && s.head == 1 && |s.batches| == |batches| && s.batches[1..] == batches[1..]
    && 1 in s.calls && s.calls[1] == RaceCall(SecondError)
  }

  /** The first error flushes the first batch and leaves the rest. */
  lemma {:induction false} FirstErrorFlushes(s: Batcher)
    requires s.head == 0 && |s.batches| >= 1 && RaceBatches(s.batches) && s.calls == BothCalls()
    ensures Defined(s, Finish(0)) && Promised(s, Finish(0))
    ensures FirstIsGone(Next(s, Finish(0)), s.batches)
  {
    var done := s.(calls := s.calls - {0}, reported := s.reported + [FirstError]);
    assert FlushFront(done, 0) == done;
    assert FlushFront(done, 1) == FlushFirst(done);
  }

  /** The one batch in flight is 7..8. */
  const EmptyingRace: seq<Step> := [Register(7, 2)] + Lookups + [Finish(0)]

  /** The batches in flight are 7..8 and 9..10. */
  const OtherBatchRace: seq<Step> := [Register(7, 2), Register(9, 2)] + Lookups + [Finish(0)]

  lemma {:induction false} RaceFinishes(prefix: seq<Step>, batches: seq<Batch>)
    requires Admissible(Initial([], 1), prefix) && Exec(Initial([], 1), prefix) == RaceState(batches, BothCalls())
    requires RaceBatches(batches)
    ensures Admissible(Initial([], 1), prefix + [Finish(0)])
    ensures |batches| >= 1 && FirstIsGone(Exec(Initial([], 1), prefix + [Finish(0)]), batches)
  {
    FirstErrorFlushes(RaceState(batches, BothCalls()));
    RunSnoc(Initial([], 1), prefix, Finish(0));
  }

  lemma {:induction false} OneRegistered()
    ensures Defined(Initial([], 1), Register(7, 2)) && Promised(Initial([], 1), Register(7, 2))
    ensures Next(Initial([], 1), Register(7, 2)) == RaceState([NewBatch(7, 2, 1, [])], map[])
  {
  }

  lemma {:induction false} TwoRegistered()
    ensures var s := RaceState([NewBatch(7, 2, 1, [])], map[]);
            && Defined(s, Register(9, 2)) && Promised(s, Register(9, 2))
            && Next(s, Register(9, 2)) == RaceState([NewBatch(7, 2, 1, []), NewBatch(9, 2, 1, [])], map[])
  {
  }

  lemma {:induction false} EmptyingRaceRuns()
    ensures Admissible(Initial([], 1), EmptyingRace)
    ensures FirstIsGone(Exec(Initial([], 1), EmptyingRace), [NewBatch(7, 2, 1, [])])
  {
    var bs := [NewBatch(7, 2, 1, [])];
    OneRegistered();
    RaceLookups(bs);
    SplitRun(Initial([], 1), Register(7, 2), Lookups);
    RaceFinishes([Register(7, 2)] + Lookups, bs);
  }

  /** A stale error pops an empty queue. */
  lemma {:induction false} StaleErrorIsUndefined()
    ensures Admissible(Initial([], 1), EmptyingRace)
    ensures !Defined(Exec(Initial([], 1), EmptyingRace), Finish(1))
  {
    EmptyingRaceRuns();
  }

  /** With another batch queued, a stale error flushes that one, which does not hold its frame. */
  lemma {:induction false} StaleErrorFlushesAnother()
    ensures Admissible(Initial([], 1), OtherBatchRace)
    ensures var s := Exec(Initial([], 1), OtherBatchRace);
            && Defined(s, Finish(1)) && s.calls[1].event == SecondError
            && s.head == 1 && |s.batches| == 2 && !Contains(s.batches[1], FrameOf(SecondError))
            && Next(s, Finish(1)).head == 2
  {
    OtherBatchRaceRuns();
    var bs := [NewBatch(7, 2, 1, []), NewBatch(9, 2, 1, [])];
    var s := Exec(Initial([], 1), OtherBatchRace);
    assert s.batches[1] == s.batches[1..][0] == bs[1..][0] == bs[1];
  }

  lemma {:induction false} TwoRegisteredRun()
    ensures Admissible(Initial([], 1), [Register(7, 2), Register(9, 2)] + Lookups)
    ensures Exec(Initial([], 1), [Register(7, 2), Register(9, 2)] + Lookups)
         == RaceState([NewBatch(7, 2, 1, []), NewBatch(9, 2, 1, [])], BothCalls())
  {
    OneRegistered();
    TwoRegistered();
    RaceLookups([NewBatch(7, 2, 1, []), NewBatch(9, 2, 1, [])]);
    SplitRun(RaceState([NewBatch(7, 2, 1, [])], map[]), Register(9, 2), Lookups);
    SplitRun(Initial([], 1), Register(7, 2), [Register(9, 2)] + Lookups);
    assert [Register(7, 2)] + ([Register(9, 2)] + Lookups) == [Register(7, 2), Register(9, 2)] + Lookups;
  }

  lemma {:induction false} OtherBatchRaceRuns()
    ensures Admissible(Initial([], 1), OtherBatchRace)
    ensures FirstIsGone(Exec(Initial([], 1), OtherBatchRace), [NewBatch(7, 2, 1, []), NewBatch(9, 2, 1, [])])
  {
    TwoRegisteredRun();
    RaceFinishes([Register(7, 2), Register(9, 2)] + Lookups, [NewBatch(7, 2, 1, []), NewBatch(9, 2, 1, [])]);
  }

  // ---------------------------------------------------------------- metadata

  /** What a result does to the metadata: queued, and sent up to its index if it is the last frame's. */
  lemma {:induction false} ProcessedMetadata(b: Batch, r: CaptureResult)
    requires !b.removed
    ensures var b' := ProcessResult(b, r).0;
            var q := QueueMetadata(b.mds, r);
            if r.frame == b.last && r.partial > b.progress
            then b'.progress == r.partial && forall p :: p in b'.mds ==> p > r.partial && p in q
            else b'.progress == b.progress && b'.mds == q
  {
  }

  lemma {:induction false} FlushedMetadata(b: Batch, streams: seq<StreamId>, n: nat)
    ensures var f := Flush(b, streams, n).0;
            if n <= b.progress then f.mds == b.mds else forall p :: p in f.mds ==> p > n && p in b.mds
  {
  }

  lemma {:induction false} QueuedIsPending(mds: map<nat, seq<(Frame, Metadata)>>, r: CaptureResult)
    requires r.metadata != []
    ensures PendingMeta(QueueMetadata(mds, r), MetaItem(r.frame, r.partial, r.metadata)) > 0
  {
    var entry := (r.frame, r.metadata);
    CountSnoc(if r.partial in mds then mds[r.partial] else [], entry, entry);
  }

  /** Whatever partial index it has, metadata that reaches a batch leaves it, at the flush if not
      before, exactly when the last frame's final partial result has not been sent up yet. */
  lemma {:induction false} MetadataKeptExact(b: Batch, r: CaptureResult, streams: seq<StreamId>)
    requires WellFormed(b) && !b.removed && r.metadata != [] && r.partial <= b.numPartial
    ensures var f := Flush(ProcessResult(b, r).0, streams, b.numPartial).0;
            PendingMeta(f.mds, MetaItem(r.frame, r.partial, r.metadata)) == 0 <==> b.progress < b.numPartial
  {
    ProcessedMetadata(b, r);
    FlushedMetadata(ProcessResult(b, r).0, streams, b.numPartial);
    QueuedIsPending(b.mds, r);
  }

  /** Late metadata is stuck in its batch, and the flushed batch counts as delivered all the same,
      although each partial index saw its frames in order. */
  lemma {:induction false} LateMetadataIsLost()
    ensures var b1 := ProcessResult(NewBatch(7, 2, 2, []), CaptureResult(8, 2, [1], [], None)).0;
            var b2 := ProcessResult(b1, CaptureResult(8, 1, [2], [], None)).0;
            var b3 := Flush(b2, [], 2).0;
            AllDelivered(b3) && Pending(b3, MetaItem(8, 1, [2])) > 0
  {
    var b0 := NewBatch(7, 2, 2, []);
    var b1 := ProcessResult(b0, CaptureResult(8, 2, [1], [], None)).0;
    assert b1.mds.Keys == {};
    MetadataKeptExact(b1, CaptureResult(8, 1, [2], [], None), []);
  }

  // ---------------------------------------------------------------- shutters

  lemma {:induction false} FlushedShutters(b: Batch, streams: seq<StreamId>, n: nat)
    ensures Flush(b, streams, n).0.shutters == if b.shutterDelivered then b.shutters else []
  {
  }

  lemma {:induction false} QueuedShutters(b: Batch, m: NotifyMsg)
    requires !b.removed
    ensures var b' := QueueShutter(b, m).0;
            if !b.shutterDelivered && m.frame == b.last then b'.shutters == [] && b'.shutterDelivered
            else b'.shutters == b.shutters + [m] && b'.shutterDelivered == b.shutterDelivered
  {
  }

  /** A shutter that reaches a batch leaves it, at the flush if not before, exactly when the batch's
      shutters have not been sent up yet. */
  lemma {:induction false} ShutterKeptExact(b: Batch, m: NotifyMsg, streams: seq<StreamId>)
    requires WellFormed(b) && !b.removed
    ensures var f := Flush(QueueShutter(b, m).0, streams, b.numPartial).0;
            InMessages(f.shutters, MsgItem(m)) == 0 <==> !b.shutterDelivered
  {
    QueuedShutters(b, m);
    FlushedShutters(QueueShutter(b, m).0, streams, b.numPartial);
    CountSnoc(b.shutters, m, m);
  }

  /** A shutter that follows the last frame's is stuck in its batch, and the flushed batch counts as
      delivered all the same. */
  lemma {:induction false} LateShutterIsLost()
    ensures var b1 := QueueShutter(NewBatch(7, 2, 0, []), ShutterMsg(8, 1)).0;
            var b2 := QueueShutter(b1, ShutterMsg(7, 0)).0;
            var b3 := Flush(b2, [], 0).0;
            AllDelivered(b2) && AllDelivered(b3) && Pending(b3, MsgItem(ShutterMsg(7, 0))) > 0
  {
    var b0 := NewBatch(7, 2, 0, []);
    QueuedShutters(b0, ShutterMsg(8, 1));
    var b1 := QueueShutter(b0, ShutterMsg(8, 1)).0;
    QueuedShutters(b1, ShutterMsg(7, 0));
    ShutterKeptExact(b1, ShutterMsg(7, 0), []);
  }

  // ---------------------------------------------------------------- streams changed in flight

  /** A flush after the batched streams changed from 1 to 2 leaves a queued buffer behind. */
  lemma {:induction false} ChangedStreamsStrand(o: StreamBuffer)
    requires o.streamId == 1
    ensures var b := ProcessResult(NewBatch(7, 2, 0, [1]), CaptureResult(7, 0, [], [o], None)).0;
            var f := Flush(b, [2], 0).0;
            !AllDelivered(f) && Pending(f, BufferItem(7, o)) == 1
  {
    var b0 := NewBatch(7, 2, 0, [1]);
    OneQueuedBuffer(b0.bufs, o);
    var b := ProcessResult(b0, CaptureResult(7, 0, [], [o], None)).0;
    assert b.bufs == b0.bufs[1 := BufferBatch(false, [o])];
    assert 2 in [2] && 2 !in b.bufs;
  }

  // ---------------------------------------------------------------- registered too late

  lemma {:induction false} OneQueuedBuffer(bufs: map<StreamId, BufferBatch>, o: StreamBuffer)
    requires o.streamId in bufs && bufs[o.streamId] == BufferBatch(false, [])
    ensures QueueBuffers(bufs, [o]) == bufs[o.streamId := BufferBatch(false, [o])]
    ensures BatchedStreams(bufs, [o]) == [o.streamId] && NotBatched(bufs, [o]) == []
    ensures Depth(QueueBuffers(bufs, [o]), [o.streamId]) == 1
  {
    assert [o][..0] == [];
    assert [o.streamId][..0] == [];
    assert [] + [o] == [o];
    assert QueueBuffers(bufs, []) == bufs;
    assert BatchedStreams(bufs, []) == [] && NotBatched(bufs, []) == [];
    assert Depth(QueueBuffers(bufs, [o]), []) == 0;
  }

  /** A result with one buffer. */
  function BufferOnly(frame: Frame, o: StreamBuffer): CaptureResult {
    CaptureResult(frame, 0, [], [o], None)
  }

  /** The batch after the results of frames first + missed, first + missed + 1, ... reached it: those
      of the frames before came when it was not registered yet. */
  ghost function Late(b: Batch, os: seq<StreamBuffer>, missed: nat): Batch {
    if os == [] then b
    else ProcessResult(Late(b, os[..|os| - 1], missed), BufferOnly(b.first + missed + |os| - 1, os[|os| - 1])).0
  }

  lemma {:induction false} QueueOneMore(bufs: map<StreamId, BufferBatch>, o: StreamBuffer, queued: seq<StreamBuffer>)
    requires o.streamId in bufs && bufs[o.streamId] == BufferBatch(false, queued)
    ensures QueueBuffers(bufs, [o]) == bufs[o.streamId := BufferBatch(false, queued + [o])]
    ensures BatchedStreams(bufs, [o]) == [o.streamId] && NotBatched(bufs, [o]) == []
  {
    assert [o][..0] == [];
    assert QueueBuffers(bufs, []) == bufs;
    assert BatchedStreams(bufs, []) == [] && NotBatched(bufs, []) == [];
  }

  lemma {:induction false} LateQueues(b: Batch, st: StreamId, os: seq<StreamBuffer>, missed: nat)
    requires !b.removed && st in b.bufs && b.bufs[st] == BufferBatch(false, [])
    requires forall i :: 0 <= i < |os| ==> os[i].streamId == st
    requires b.first + missed + |os| <= b.last
    ensures Late(b, os, missed) == b.(bufs := b.bufs[st := BufferBatch(false, os)])
  {
    if os == [] {
      assert b.bufs[st := BufferBatch(false, [])] == b.bufs;
    } else {
      var n := |os| - 1;
      LateQueues(b, st, os[..n], missed);
      var bufs := b.bufs[st := BufferBatch(false, os[..n])];
      QueueOneMore(bufs, os[n], os[..n]);
      assert os[..n] + [os[n]] == os;
      assert bufs[st := BufferBatch(false, os)] == b.bufs[st := BufferBatch(false, os)];
    }
  }

  /** One stream's part of a send: how deep, and which buffer at each position. */
  lemma {:induction false} OneStream(bufs: map<StreamId, BufferBatch>, st: StreamId, os: seq<StreamBuffer>, i: nat)
    requires st in bufs && bufs[st] == BufferBatch(false, os)
    ensures Covers(bufs, [st]) && Depth(bufs, [st]) == |os|
    ensures i < |os| ==> Pick(bufs, [st], i) == [os[i]]
  {
    assert [st][..0] == [];
    assert Depth(bufs, []) == 0 && Pick(bufs, [], i) == [];
  }

  lemma {:induction false} ResultAt(first: Frame, bufs: map<StreamId, BufferBatch>, streams: seq<StreamId>, n: nat, i: nat)
    requires Covers(bufs, streams) && i < n
    ensures BufferResults(first, bufs, streams, n)[i] == BufferResult(first, bufs, streams, i)
  {
    if i < n - 1 {
      ResultAt(first, bufs, streams, n - 1, i);
    }
  }

  lemma {:induction false} OneStreamResults(first: Frame, bufs: map<StreamId, BufferBatch>, st: StreamId, os: seq<StreamBuffer>, i: nat)
    requires st in bufs && bufs[st] == BufferBatch(false, os) && i < |os| && Covers(bufs, [st])
    ensures BufferResults(first, bufs, [st], |os|)[i] == BufferOnly(first + i, os[i])
  {
    ResultAt(first, bufs, [st], |os|, i);
    OneStream(bufs, st, os, i);
  }

  /** A stream whose first `missed` results came before the registration has each of the following
      buffers, reported for frame first + missed + i, delivered as frame first + i. */
  lemma {:induction false} LateRegistrationShifts(b: Batch, st: StreamId, os: seq<StreamBuffer>, missed: nat)
    requires !b.removed && st in b.bufs && b.bufs[st] == BufferBatch(false, [])
    requires os != [] && forall i :: 0 <= i < |os| ==> os[i].streamId == st
    requires b.first + missed + |os| == b.last + 1
    ensures var cbs := ProcessResult(Late(b, os[..|os| - 1], missed), BufferOnly(b.last, os[|os| - 1])).1;
            && |cbs| == 1 && cbs[0].Captured? && |cbs[0].results| == |os|
            && forall i :: 0 <= i < |os| ==> cbs[0].results[i] == BufferOnly(b.first + i, os[i])
  {
    var n := |os| - 1;
    LateQueues(b, st, os[..n], missed);
    assert os[..n] + [os[n]] == os;
    LastResultSends(Late(b, os[..n], missed), st, os);
  }

  /** The last frame's result sends everything its stream has queued, by position. */
  lemma {:induction false} LastResultSends(b: Batch, st: StreamId, os: seq<StreamBuffer>)
    requires !b.removed && os != [] && st in b.bufs && b.bufs[st] == BufferBatch(false, os[..|os| - 1]) && os[|os| - 1].streamId == st
    ensures var cbs := ProcessResult(b, BufferOnly(b.last, os[|os| - 1])).1;
            && |cbs| == 1 && cbs[0].Captured? && |cbs[0].results| == |os|
            && forall i :: 0 <= i < |os| ==> cbs[0].results[i] == BufferOnly(b.first + i, os[i])
  {
    var n := |os| - 1;
    QueueOneMore(b.bufs, os[n], os[..n]);
    assert os[..n] + [os[n]] == os;
    var all := b.bufs[st := BufferBatch(false, os)];
    OneStream(all, st, os, 0);
    forall i | 0 <= i < |os| ensures BufferResults(b.first, all, [st], |os|)[i] == BufferOnly(b.first + i, os[i]) {
      OneStreamResults(b.first, all, st, os, i);
    }
  }

  /** Registering a batch after its first results is what in-order HALs do not survive: a buffer of
      the last frame that finds an empty queue is delivered as the first frame's. */
  lemma {:induction false} LateRegistrationMistags(first: Frame, size: nat, numPartial: nat, streams: seq<StreamId>, o: StreamBuffer)
    requires size >= 2 && o.streamId in streams
    ensures var cbs := ProcessResult(NewBatch(first, size, numPartial, streams),
                                     CaptureResult(first + size - 1, 0, [], [o], None)).1;
            InCallbacks(cbs, BufferItem(first, o)) == 1 && InCallbacks(cbs, BufferItem(first + size - 1, o)) == 0
  {
    var b0 := NewBatch(first, size, numPartial, streams);
    var r := CaptureResult(first + size - 1, 0, [], [o], None);
    OneQueuedBuffer(b0.bufs, o);
    var bufs := QueueBuffers(b0.bufs, [o]);
    assert ProcessResult(b0, r).1 == [Captured(BufferResults(first, bufs, [o.streamId], 1))];
    OneBufferSent(first, bufs, o, BufferItem(first, o));
    OneBufferSent(first, bufs, o, BufferItem(first + size - 1, o));
  }

  lemma {:induction false} OneBufferSent(first: Frame, bufs: map<StreamId, BufferBatch>, o: StreamBuffer, x: Item)
    requires o.streamId in bufs && bufs[o.streamId] == BufferBatch(false, [o]) && WellKeyed(bufs)
    ensures Covers(bufs, [o.streamId])
    ensures InCallbacks([Captured(BufferResults(first, bufs, [o.streamId], 1))], x) == if x == BufferItem(first, o) then 1 else 0
  {
    OneCallback(Captured(BufferResults(first, bufs, [o.streamId], 1)), x);
    BufferResultsCount(first, bufs, [o.streamId], 1, x);
  }
}
