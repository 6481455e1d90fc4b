/**
 Conservation for the sections of the result batcher: whatever a section takes in is, afterwards,
 either delivered or still queued, once, and under the frame it was reported for.
 */
module ResultBatchConservation {
  import opened Basics
  import opened ResultBatch

  ghost predicate Distinct<T>(s: seq<T>) {
    forall i, j :: 0 <= i < j < |s| ==> s[i] != s[j]
  }

  /** What every batch still in flight satisfies. */
  ghost predicate WellFormed(b: Batch) {
    && b.first <= b.last
    && WellKeyed(b.bufs)
    && (b.shutterDelivered ==> b.shutters == [])
    && (forall s :: s in b.bufs && b.bufs[s].delivered ==> b.bufs[s].buffers == [])
    && NonEmptyMds(b.mds)
    && (forall p :: p in b.mds ==> p <= b.numPartial)
    && b.progress <= b.numPartial
    && (b.progress == b.numPartial ==> b.mds == map[])
  }

  ghost predicate WellKeyed(bufs: map<StreamId, BufferBatch>) {
    forall s, i :: s in bufs && 0 <= i < |bufs[s].buffers| ==> bufs[s].buffers[i].streamId == s
  }

  ghost predicate NonEmptyMds(mds: map<nat, seq<(Frame, Metadata)>>) {
    forall p, i :: p in mds && 0 <= i < |mds[p]| ==> mds[p][i].1 != []
  }

  // ---------------------------------------------------------------- counting

  lemma {:induction false} CountSnoc<T>(s: seq<T>, y: T, x: T)
    ensures Count(s + [y], x) == Count(s, x) + if y == x then 1 else 0
  {
    assert (s + [y])[..|s|] == s;
  }

  lemma {:induction false} InResultsSnoc(rs: seq<CaptureResult>, r: CaptureResult, x: Item)
    ensures InResults(rs + [r], x) == InResults(rs, x) + InResult(r, x)
  {
    assert (rs + [r])[..|rs|] == rs;
  }

  lemma {:induction false} InResultsConcat(a: seq<CaptureResult>, b: seq<CaptureResult>, x: Item)
    ensures InResults(a + b, x) == InResults(a, x) + InResults(b, x)
  {
    if b == [] {
      assert a + b == a;
    } else {
      var n := |b| - 1;
      InResultsConcat(a, b[..n], x);
      InResultsSnoc(a + b[..n], b[n], x);
      assert a + b == a + b[..n] + [b[n]];
    }
  }

  lemma {:induction false} InCallbacksSnoc(cbs: seq<Callback>, cb: Callback, x: Item)
    ensures InCallbacks(cbs + [cb], x) == InCallbacks(cbs, x) + InCallback(cb, x)
  {
    assert (cbs + [cb])[..|cbs|] == cbs;
  }

  lemma {:induction false} InCallbacksConcat(a: seq<Callback>, b: seq<Callback>, x: Item)
    ensures InCallbacks(a + b, x) == InCallbacks(a, x) + InCallbacks(b, x)
  {
    if b == [] {
      assert a + b == a;
    } else {
      var n := |b| - 1;
      InCallbacksConcat(a, b[..n], x);
      InCallbacksSnoc(a + b[..n], b[n], x);
      assert a + b == a + b[..n] + [b[n]];
    }
  }

  lemma {:induction false} OneCallback(cb: Callback, x: Item)
    ensures InCallbacks([cb], x) == InCallback(cb, x)
  {
    assert [cb][..0] == [];
  }

  lemma {:induction false} OneResult(r: CaptureResult, x: Item)
    ensures InCallbacks([Captured([r])], x) == InResult(r, x)
  {
    OneCallback(Captured([r]), x);
    InResultsSnoc([], r, x);
    assert [] + [r] == [r];
  }

  lemma {:induction false} OneMessage(msg: NotifyMsg, x: Item)
    ensures InCallbacks([Notified([msg])], x) == InMessages([msg], x) == if x == MsgItem(msg) then 1 else 0
  {
    OneCallback(Notified([msg]), x);
    if x.MsgItem? {
      CountSnoc([], msg, x.msg);
      assert [] + [msg] == [msg];
    }
  }

  // ---------------------------------------------------------------- sending buffers

  ghost predicate QueuedAt(bufs: map<StreamId, BufferBatch>, streams: seq<StreamId>, i: int, b: StreamBuffer)
    requires Covers(bufs, streams)
  {
    && b.streamId in streams
    && !bufs[b.streamId].delivered
    && 0 <= i < |bufs[b.streamId].buffers|
    && bufs[b.streamId].buffers[i] == b
  }

  lemma {:induction false} PickCount(bufs: map<StreamId, BufferBatch>, streams: seq<StreamId>, i: nat, b: StreamBuffer)
    requires Distinct(streams) && WellKeyed(bufs) && Covers(bufs, streams)
    ensures Count(Pick(bufs, streams, i), b) == if QueuedAt(bufs, streams, i, b) then 1 else 0
  {
    if streams != [] {
      var n := |streams| - 1;
      var rest, s := streams[..n], streams[n];
      assert streams == rest + [s];
      assert s !in rest;
      PickCount(bufs, rest, i, b);
      var bb := bufs[s];
      if !bb.delivered && i < |bb.buffers| {
        CountSnoc(Pick(bufs, rest, i), bb.buffers[i], b);
      }
    }
  }

  lemma {:induction false} BufferResultCount(first: Frame, bufs: map<StreamId, BufferBatch>, streams: seq<StreamId>, i: nat, x: Item)
    requires Distinct(streams) && WellKeyed(bufs) && Covers(bufs, streams)
    ensures InResult(BufferResult(first, bufs, streams, i), x)
         == if x.BufferItem? && x.frame == first + i && QueuedAt(bufs, streams, i, x.buffer) then 1 else 0
  {
    if x.BufferItem? {
      PickCount(bufs, streams, i, x.buffer);
    }
  }

  /** The results built for a batch hold each queued buffer of the streams once, at first + position. */
  lemma {:induction false} BufferResultsCount(first: Frame, bufs: map<StreamId, BufferBatch>, streams: seq<StreamId>, n: nat, x: Item)
    requires Distinct(streams) && WellKeyed(bufs) && Covers(bufs, streams)
    ensures InResults(BufferResults(first, bufs, streams, n), x)
         == if x.BufferItem? && x.frame < first + n && QueuedAt(bufs, streams, x.frame - first, x.buffer) then 1 else 0
  {
    if n > 0 {
      BufferResultsCount(first, bufs, streams, n - 1, x);
      BufferResultCount(first, bufs, streams, n - 1, x);
      InResultsSnoc(BufferResults(first, bufs, streams, n - 1), BufferResult(first, bufs, streams, n - 1), x);
    }
  }

  lemma {:induction false} DepthBounds(bufs: map<StreamId, BufferBatch>, streams: seq<StreamId>)
    requires Covers(bufs, streams)
    ensures forall s :: s in streams && !bufs[s].delivered ==> |bufs[s].buffers| <= Depth(bufs, streams)
  {
    if streams != [] {
      var n := |streams| - 1;
      DepthBounds(bufs, streams[..n]);
      assert streams == streams[..n] + [streams[n]];
    }
  }

  ghost predicate SentStreams(before: map<StreamId, BufferBatch>, after: map<StreamId, BufferBatch>, streams: seq<StreamId>) {
    && after.Keys == before.Keys
    && forall s :: s in before ==> after[s] == if s in streams then BufferBatch(true, []) else before[s]
  }

  lemma {:induction false} SendBuffersShape(b: Batch, streams: seq<StreamId>)
    requires WellFormed(b) && Covers(b.bufs, streams)
    ensures var b' := SendBuffers(b, streams).0;
            b' == b.(bufs := b'.bufs) && SentStreams(b.bufs, b'.bufs, streams) && WellFormed(b')
  {
    DepthBounds(b.bufs, streams);
  }

  lemma {:induction false} SentLeaveQueue(first: Frame, before: map<StreamId, BufferBatch>, after: map<StreamId, BufferBatch>, streams: seq<StreamId>, x: Item)
    requires Covers(before, streams) && SentStreams(before, after, streams)
    requires forall s :: s in before && before[s].delivered ==> before[s].buffers == []
    ensures PendingBuffer(first, before, x)
         == PendingBuffer(first, after, x)
            + if x.BufferItem? && QueuedAt(before, streams, x.frame - first, x.buffer) then 1 else 0
  {
  }

  lemma {:induction false} SendBuffersConserves(b: Batch, streams: seq<StreamId>, x: Item)
    requires WellFormed(b) && Distinct(streams) && Covers(b.bufs, streams)
    ensures var (b', cbs) := SendBuffers(b, streams);
            Pending(b, x) == Pending(b', x) + InCallbacks(cbs, x)
  {
    var depth := Depth(b.bufs, streams);
    DepthBounds(b.bufs, streams);
    SendBuffersShape(b, streams);
    SentLeaveQueue(b.first, b.bufs, SendBuffers(b, streams).0.bufs, streams, x);
    if depth > 0 {
      OneCallback(Captured(BufferResults(b.first, b.bufs, streams, depth)), x);
      BufferResultsCount(b.first, b.bufs, streams, depth, x);
    }
  }

  // ---------------------------------------------------------------- sending metadata

  lemma {:induction false} MetaResultsOfCount(p: nat, mds: seq<(Frame, Metadata)>, x: Item)
    requires forall i :: 0 <= i < |mds| ==> mds[i].1 != []
    ensures InResults(MetaResultsOf(p, mds), x)
         == if x.MetaItem? && x.partial == p then Count(mds, (x.frame, x.metadata)) else 0
  {
    if mds != [] {
      var n := |mds| - 1;
      MetaResultsOfCount(p, mds[..n], x);
      assert MetaResultsOf(p, mds)[..n] == MetaResultsOf(p, mds[..n]);
    }
  }

  lemma {:induction false} MetaResultsCount(mds: map<nat, seq<(Frame, Metadata)>>, n: nat, x: Item)
    requires NonEmptyMds(mds)
    ensures InResults(MetaResults(mds, n), x)
         == if x.MetaItem? && x.partial < n then PendingMeta(mds, x) else 0
  {
    if n > 0 {
      MetaResultsCount(mds, n - 1, x);
      MetaResultsStep(mds, n - 1, x);
    }
  }

  lemma {:induction false} MetaResultsStep(mds: map<nat, seq<(Frame, Metadata)>>, n: nat, x: Item)
    requires NonEmptyMds(mds)
    ensures InResults(MetaResults(mds, n + 1), x)
         == InResults(MetaResults(mds, n), x) + if x.MetaItem? && x.partial == n then PendingMeta(mds, x) else 0
  {
    if n in mds {
      MetaResultsOfCount(n, mds[n], x);
      InResultsConcat(MetaResults(mds, n), MetaResultsOf(n, mds[n]), x);
    }
  }

  lemma {:induction false} SendMetadataShape(b: Batch, lastPartial: nat)
    requires WellFormed(b) && lastPartial <= b.numPartial
    ensures var b' := SendMetadata(b, lastPartial).0;
            && WellFormed(b')
            && b' == b.(mds := b'.mds, progress := if lastPartial <= b.progress then b.progress else lastPartial)
            && (b'.progress == b'.numPartial ==> b'.mds == map[])
  {
    var b' := SendMetadata(b, lastPartial).0;
    if b'.progress == b'.numPartial {
      assert b'.mds.Keys == {};
    }
  }

  lemma {:induction false} SendMetadataConserves(b: Batch, lastPartial: nat, x: Item)
    requires WellFormed(b)
    ensures var (b', cbs) := SendMetadata(b, lastPartial);
            Pending(b, x) == Pending(b', x) + InCallbacks(cbs, x)
  {
    if lastPartial > b.progress {
      OneCallback(Captured(MetaResults(b.mds, lastPartial + 1)), x);
      MetaResultsCount(b.mds, lastPartial + 1, x);
    }
  }

  // ---------------------------------------------------------------- shutters

  lemma {:induction false} SendShuttersConserves(b: Batch, x: Item)
    requires b.shutterDelivered ==> b.shutters == []
    ensures var (b', cbs) := SendShutters(b);
            && Pending(b, x) == Pending(b', x) + InCallbacks(cbs, x)
            && b' == b.(shutterDelivered := true, shutters := [])
  {
    if !b.shutterDelivered {
      OneCallback(Notified(b.shutters), x);
    }
  }

  /** A shutter is queued or delivered once; a batch that already sent its shutters must not get one. */
  lemma {:induction false} QueueShutterConserves(b: Batch, msg: NotifyMsg, x: Item)
    requires !b.removed ==> WellFormed(b) && !b.shutterDelivered
    ensures var (b', cbs) := QueueShutter(b, msg);
            && Pending(b, x) + InMessages([msg], x) == Pending(b', x) + InCallbacks(cbs, x)
            && b' == b.(shutters := b'.shutters, shutterDelivered := b'.shutterDelivered)
            && (b.removed ==> b' == b)
            && (!b.removed ==> WellFormed(b') && (b'.shutterDelivered <==> msg.frame == b.last))
  {
    OneMessage(msg, x);
    if !b.removed {
      var b1 := b.(shutters := b.shutters + [msg]);
      if x.MsgItem? {
        CountSnoc(b.shutters, msg, x.msg);
      }
      if msg.frame == b.last {
        SendShuttersConserves(b1, x);
      }
    }
  }

  // ---------------------------------------------------------------- queueing a result

  ghost predicate DistinctStreams(outputs: seq<StreamBuffer>) {
    forall i, j :: 0 <= i < j < |outputs| ==> outputs[i].streamId != outputs[j].streamId
  }

  ghost predicate HasStream(outputs: seq<StreamBuffer>, s: StreamId) {
    exists i :: 0 <= i < |outputs| && outputs[i].streamId == s
  }

  /** Every batched buffer of the result lands at the position that stands for its frame. */
  ghost predicate LandsAtFrame(first: Frame, bufs: map<StreamId, BufferBatch>, frame: Frame, outputs: seq<StreamBuffer>) {
    forall i :: 0 <= i < |outputs| && outputs[i].streamId in bufs ==>
      first + |bufs[outputs[i].streamId].buffers| == frame
  }

  function Enqueue(bb: BufferBatch, o: StreamBuffer): BufferBatch {
    bb.(buffers := bb.buffers + [o])
  }

  lemma {:induction false} QueueBuffersShape(bufs: map<StreamId, BufferBatch>, outputs: seq<StreamBuffer>)
    requires DistinctStreams(outputs) && WellKeyed(bufs)
    ensures WellKeyed(QueueBuffers(bufs, outputs))
    ensures forall s :: s in bufs && !HasStream(outputs, s) ==> QueueBuffers(bufs, outputs)[s] == bufs[s]
    ensures forall i :: 0 <= i < |outputs| && outputs[i].streamId in bufs ==>
              QueueBuffers(bufs, outputs)[outputs[i].streamId] == Enqueue(bufs[outputs[i].streamId], outputs[i])
  {
    if outputs != [] {
      var n := |outputs| - 1;
      var rest, o := outputs[..n], outputs[n];
      QueueBuffersShape(bufs, rest);
      assert !HasStream(rest, o.streamId);
      assert forall s :: !HasStream(outputs, s) ==> !HasStream(rest, s) && s != o.streamId;
    }
  }

  /** A buffer put at the position of its frame is pending exactly as that frame's buffer. */
  lemma {:induction false} QueueOne(first: Frame, bufs: map<StreamId, BufferBatch>, o: StreamBuffer, x: Item)
    requires o.streamId in bufs
    ensures PendingBuffer(first, bufs[o.streamId := Enqueue(bufs[o.streamId], o)], x)
         == PendingBuffer(first, bufs, x)
            + if x == BufferItem(first + |bufs[o.streamId].buffers|, o) then 1 else 0
  {
  }

  /** How often x is one of these buffers reported for `frame`. */
  function AsBuffers(frame: Frame, bufs: seq<StreamBuffer>, x: Item): nat {
    if x.BufferItem? && x.frame == frame then Count(bufs, x.buffer) else 0
  }

  lemma {:induction false} QueueBuffersConserves(first: Frame, bufs: map<StreamId, BufferBatch>, frame: Frame, outputs: seq<StreamBuffer>, x: Item)
    requires DistinctStreams(outputs) && WellKeyed(bufs) && LandsAtFrame(first, bufs, frame, outputs)
    ensures PendingBuffer(first, bufs, x) + AsBuffers(frame, outputs, x)
         == PendingBuffer(first, QueueBuffers(bufs, outputs), x) + AsBuffers(frame, NotBatched(bufs, outputs), x)
  {
    if outputs != [] {
      var n := |outputs| - 1;
      var rest, o := outputs[..n], outputs[n];
      assert LandsAtFrame(first, bufs, frame, rest);
      QueueBuffersConserves(first, bufs, frame, rest, x);
      if o.streamId in bufs {
        QueueBuffersShape(bufs, rest);
        assert !HasStream(rest, o.streamId);
        QueueOne(first, QueueBuffers(bufs, rest), o, x);
      } else if x.BufferItem? {
        CountSnoc(NotBatched(bufs, rest), o, x.buffer);
      }
    }
  }

  /** Re-tagging by position is right exactly when the queue is as long as the frame's offset. */
  lemma {:induction false} RetagExact(b: Batch, frame: Frame, o: StreamBuffer)
    requires o.streamId in b.bufs
    ensures (forall x :: PendingBuffer(b.first, QueueBuffers(b.bufs, [o]), x)
                      == PendingBuffer(b.first, b.bufs, x) + if x == BufferItem(frame, o) then 1 else 0)
        <==> b.first + |b.bufs[o.streamId].buffers| == frame
  {
    var pos := b.first + |b.bufs[o.streamId].buffers|;
    assert QueueBuffers(b.bufs, [o][..0]) == b.bufs;
    assert QueueBuffers(b.bufs, [o]) == b.bufs[o.streamId := Enqueue(b.bufs[o.streamId], o)];
    if pos == frame {
      forall x {
        QueueOne(b.first, b.bufs, o, x);
      }
    } else {
      QueueOne(b.first, b.bufs, o, BufferItem(pos, o));
    }
  }

  lemma {:induction false} BatchedStreamsShape(bufs: map<StreamId, BufferBatch>, outputs: seq<StreamBuffer>)
    requires DistinctStreams(outputs)
    ensures var filled := BatchedStreams(bufs, outputs);
            && Distinct(filled) && Covers(bufs, filled)
            && forall s :: s in filled <==> s in bufs && HasStream(outputs, s)
  {
    if outputs != [] {
      var n := |outputs| - 1;
      var rest, o := outputs[..n], outputs[n];
      BatchedStreamsShape(bufs, rest);
      assert !HasStream(rest, o.streamId);
      assert forall s :: HasStream(rest, s) ==> HasStream(outputs, s);
    }
  }

  lemma {:induction false} QueueMetadataConserves(mds: map<nat, seq<(Frame, Metadata)>>, r: CaptureResult, x: Item)
    requires NonEmptyMds(mds)
    ensures PendingMeta(QueueMetadata(mds, r), x)
         == PendingMeta(mds, x) + if x.MetaItem? then InResult(r, x) else 0
  {
    if r.metadata != [] && x.MetaItem? && x.partial == r.partial {
      CountSnoc(if r.partial in mds then mds[r.partial] else [], (r.frame, r.metadata), (x.frame, x.metadata));
    }
  }

  // ---------------------------------------------------------------- whole sections

  /** What the batch relies on when a result reaches it. */
  ghost predicate ResultFits(b: Batch, r: CaptureResult) {
    && DistinctStreams(r.outputs)
    && LandsAtFrame(b.first, b.bufs, r.frame, r.outputs)
    && (forall i :: 0 <= i < |r.outputs| && r.outputs[i].streamId in b.bufs ==> !b.bufs[r.outputs[i].streamId].delivered)
    && r.partial <= b.numPartial
    && (r.metadata != [] ==> b.progress < b.numPartial)
  }

  lemma {:induction false} QueuedWellFormed(b: Batch, r: CaptureResult)
    requires WellFormed(b) && ResultFits(b, r)
    ensures WellFormed(Queued(b, r))
  {
    QueueBuffersShape(b.bufs, r.outputs);
    assert forall s :: s in b.bufs && b.bufs[s].delivered ==> !HasStream(r.outputs, s);
  }

  lemma {:induction false} QueuedConserves(b: Batch, r: CaptureResult, x: Item)
    requires WellFormed(b) && ResultFits(b, r)
    ensures Pending(b, x) + InResult(r, x) == Pending(Queued(b, r), x) + InCallbacks(SendUnbatched(b.bufs, r), x)
  {
    QueueMetadataConserves(b.mds, r, x);
    QueueBuffersConserves(b.first, b.bufs, r.frame, r.outputs, x);
    var now := NotBatched(b.bufs, r.outputs);
    if now != [] || r.input.Some? {
      OneResult(CaptureResult(r.frame, 0, [], now, r.input), x);
    }
  }

  lemma {:induction false} SendAtLastFrameShape(b: Batch, r: CaptureResult, filled: seq<StreamId>)
    requires WellFormed(b) && r.partial <= b.numPartial && Covers(b.bufs, filled)
    ensures var b' := SendAtLastFrame(b, r, filled).0;
            && WellFormed(b')
            && b' == b.(mds := b'.mds, bufs := b'.bufs, progress := if r.partial <= b.progress then b.progress else r.partial)
            && SentStreams(b.bufs, b'.bufs, filled)
  {
    var b1 := if r.partial > 0 then SendMetadata(b, r.partial).0 else b;
    if r.partial > 0 {
      SendMetadataShape(b, r.partial);
    }
    if filled != [] {
      SendBuffersShape(b1, filled);
    }
  }

  lemma {:induction false} SendAtLastFrameConserves(b: Batch, r: CaptureResult, filled: seq<StreamId>, x: Item)
    requires WellFormed(b) && r.partial <= b.numPartial
    requires Distinct(filled) && Covers(b.bufs, filled)
    ensures var (b', cbs) := SendAtLastFrame(b, r, filled);
            Pending(b, x) == Pending(b', x) + InCallbacks(cbs, x)
  {
    var (b1, c1) := if r.partial > 0 then SendMetadata(b, r.partial) else (b, []);
    if r.partial > 0 {
      SendMetadataConserves(b, r.partial, x);
      SendMetadataShape(b, r.partial);
    }
    var (b2, c2) := if filled != [] then SendBuffers(b1, filled) else (b1, []);
    if filled != [] {
      SendBuffersConserves(b1, filled, x);
    }
    InCallbacksConcat(c1, c2, x);
  }

  /** processCaptureResult under the batch's lock loses nothing, repeats nothing, moves nothing to another frame. */
  lemma {:induction false} ProcessResultConserves(b: Batch, r: CaptureResult, x: Item)
    requires !b.removed ==> WellFormed(b) && ResultFits(b, r)
    ensures var (b', cbs) := ProcessResult(b, r);
            Pending(b, x) + InResult(r, x) == Pending(b', x) + InCallbacks(cbs, x)
  {
    if b.removed {
      OneResult(r, x);
    } else {
      QueuedConserves(b, r, x);
      QueuedWellFormed(b, r);
      if r.frame == b.last {
        var filled := BatchedStreams(b.bufs, r.outputs);
        BatchedStreamsShape(b.bufs, r.outputs);
        SendAtLastFrameConserves(Queued(b, r), r, filled, x);
        InCallbacksConcat(SendUnbatched(b.bufs, r), SendAtLastFrame(Queued(b, r), r, filled).1, x);
      }
    }
  }

  /** After a result: which queues grew, and which were sent. */
  lemma {:induction false} ProcessResultShape(b: Batch, r: CaptureResult)
    requires !b.removed && WellFormed(b) && ResultFits(b, r)
    ensures var b' := ProcessResult(b, r).0;
            && WellFormed(b')
            && b' == b.(mds := b'.mds, bufs := b'.bufs, progress := b'.progress)
            && b'.progress == (if r.frame == b.last && r.partial > b.progress then r.partial else b.progress)
            && b'.bufs.Keys == b.bufs.Keys
            && forall s :: s in b.bufs ==>
                 if !HasStream(r.outputs, s) then b'.bufs[s] == b.bufs[s]
                 else if r.frame == b.last then b'.bufs[s] == BufferBatch(true, [])
                 else !b'.bufs[s].delivered && |b'.bufs[s].buffers| == |b.bufs[s].buffers| + 1
  {
    QueuedWellFormed(b, r);
    QueueBuffersShape(b.bufs, r.outputs);
    if r.frame == b.last {
      var filled := BatchedStreams(b.bufs, r.outputs);
      BatchedStreamsShape(b.bufs, r.outputs);
      SendAtLastFrameShape(Queued(b, r), r, filled);
    }
    var q := QueueBuffers(b.bufs, r.outputs);
    forall s | s in b.bufs && HasStream(r.outputs, s)
      ensures !q[s].delivered && |q[s].buffers| == |b.bufs[s].buffers| + 1
    {
      var i :| 0 <= i < |r.outputs| && r.outputs[i].streamId == s;
    }
  }

  /** A batch whose flags say "all delivered" holds nothing any more. */
  lemma {:induction false} AllDeliveredHoldsNothing(b: Batch, x: Item)
    requires WellFormed(b) && AllDelivered(b)
    ensures Pending(b, x) == 0
  {
  }

  /** For any current stream list, the flushed batch counts as delivered exactly when every stream
      not yet delivered is listed and every listed stream is one of the batch's. */
  lemma {:induction false} FlushAllDeliveredExact(b: Batch, streams: seq<StreamId>)
    ensures AllDelivered(Flush(b, streams, b.numPartial).0)
        <==> (forall s :: s in b.bufs ==> b.bufs[s].delivered || (Covers(b.bufs, streams) && s in streams))
  {
    var b1 := SendShutters(b).0;
    var b2 := SendBuffers(b1, streams).0;
    assert b2.bufs.Keys == b.bufs.Keys;
    assert forall s :: s in b.bufs ==>
      (b2.bufs[s].delivered <==> b.bufs[s].delivered || (Covers(b.bufs, streams) && s in streams));
  }

  /** Every stream that still has a buffer is listed, and every listed stream is one of the batch's. */
  ghost predicate FlushReaches(b: Batch, streams: seq<StreamId>) {
    forall s :: s in b.bufs ==> b.bufs[s].buffers == [] || (Covers(b.bufs, streams) && s in streams)
  }

  /** ... and it strands a buffer exactly when a stream that still has one fails that condition. */
  lemma {:induction false} FlushStrandsNothingExact(b: Batch, streams: seq<StreamId>)
    requires WellFormed(b) && Distinct(streams)
    ensures (forall x :: Pending(Flush(b, streams, b.numPartial).0, x) == 0) <==> FlushReaches(b, streams)
  {
    var b1 := SendShutters(b).0;
    var b2 := SendBuffers(b1, streams).0;
    var b3 := SendMetadata(b2, b.numPartial).0;
    if Covers(b.bufs, streams) {
      SendBuffersShape(b1, streams);
    }
    SendMetadataShape(b2, b.numPartial);
    forall x
      ensures Pending(Flush(b, streams, b.numPartial).0, x) == PendingBuffer(b.first, b2.bufs, x)
    {
    }
    forall s | s in b.bufs && b.bufs[s].buffers != [] && !(Covers(b.bufs, streams) && s in streams)
      ensures Pending(Flush(b, streams, b.numPartial).0, BufferItem(b.first, b.bufs[s].buffers[0])) == 1
    {
      assert b2.bufs[s] == b.bufs[s];
    }
  }

  /** Then everything the batch held is delivered, once. */
  lemma {:induction false} FlushDelivers(b: Batch, streams: seq<StreamId>, x: Item)
    requires WellFormed(b) && Distinct(streams) && FlushReaches(b, streams)
    ensures var (b', cbs) := Flush(b, streams, b.numPartial);
            Pending(b, x) == InCallbacks(cbs, x) && Pending(b', x) == 0
  {
    FlushStrandsNothingExact(b, streams);
    var (b1, c1) := SendShutters(b);
    SendShuttersConserves(b, x);
    var (b2, c2) := SendBuffers(b1, streams);
    if Covers(b.bufs, streams) {
      SendBuffersConserves(b1, streams, x);
      SendBuffersShape(b1, streams);
    }
    var (b3, c3) := SendMetadata(b2, b.numPartial);
    SendMetadataConserves(b2, b.numPartial, x);
    InCallbacksConcat(c1, c2, x);
    InCallbacksConcat(c1 + c2, c3, x);
  }

  /** In particular when the streams are the ones the batch was registered with, and then it counts as
      delivered. */
  lemma {:induction false} FlushConserves(b: Batch, streams: seq<StreamId>, x: Item)
    requires WellFormed(b) && Distinct(streams)
    requires forall s :: s in streams <==> s in b.bufs
    ensures var (b', cbs) := Flush(b, streams, b.numPartial);
            Pending(b, x) == InCallbacks(cbs, x) && Pending(b', x) == 0 && AllDelivered(b')
  {
    assert Covers(b.bufs, streams);
    FlushDelivers(b, streams, x);
    FlushAllDeliveredExact(b, streams);
  }
}
