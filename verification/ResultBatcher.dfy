/**
 The result batcher itself: batches are shared mutable objects, the queue is a sequence of
 references to them.  Each method computes, in place, what the functions of ResultBatch say.
 */
module ResultBatcher {
  import opened Basics
  import opened ResultBatch
  import opened BatcherRuns

  method AllStreamsDelivered(bufs: map<StreamId, BufferBatch>) returns (all: bool)
    ensures all <==> forall s :: s in bufs ==> bufs[s].delivered
  {
    var rest := bufs.Keys;
    while exists s :: s in rest
      invariant rest <= bufs.Keys
      invariant forall s :: s in bufs && s !in rest ==> bufs[s].delivered
      decreases rest
    {
      var s :| s in rest;
      if !bufs[s].delivered {
        return false;
      }
      rest := rest - {s};
    }
    return true;
  }

  class InflightBatch {
    const firstFrame: Frame
    const lastFrame: Frame
    const numPartialResults: nat
    var shutterDelivered: bool
    var shutterMsgs: seq<NotifyMsg>
    var batchBufs: map<StreamId, BufferBatch>
    var partialResultProgress: nat
    var resultMds: map<nat, seq<(Frame, Metadata)>>
    var removed: bool

    ghost function View(): Batch
      reads this
    {
      Batch(firstFrame, lastFrame, shutterDelivered, shutterMsgs, batchBufs,
            numPartialResults, partialResultProgress, resultMds, removed)
    }

    constructor (first: Frame, size: nat, numPartial: nat, streams: seq<StreamId>)
      requires size > 0
      ensures View() == NewBatch(first, size, numPartial, streams)
    {
      firstFrame, lastFrame, numPartialResults := first, first + size - 1, numPartial;
      shutterDelivered, shutterMsgs, partialResultProgress, resultMds, removed := false, [], 0, map[], false;
      var bufs := map[];
      for i := 0 to |streams|
        invariant bufs == map s | s in streams[..i] :: BufferBatch(false, [])
      {
        bufs := bufs[streams[i] := BufferBatch(false, [])];
      }
      assert streams[..|streams|] == streams;
      batchBufs := bufs;
    }

    method CheckAllDelivered() returns (all: bool)
      ensures all <==> AllDelivered(View())
    {
      if !shutterDelivered || partialResultProgress < numPartialResults {
        return false;
      }
      all := AllStreamsDelivered(batchBufs);
    }
  }

  class ResultBatcher {
    var inflightBatches: seq<InflightBatch>
    var numPartialResults: nat
    var streamsToBatch: seq<StreamId>
    /** What the framework has been called with. */
    var callbacks: seq<Callback>

    constructor (numPartial: nat, streams: seq<StreamId>)
      ensures inflightBatches == [] && numPartialResults == numPartial && streamsToBatch == streams && callbacks == []
    {
      inflightBatches, numPartialResults, streamsToBatch, callbacks := [], numPartial, streams, [];
    }

    ghost function Views(): (vs: seq<Batch>)
      reads this, inflightBatches
      ensures |vs| == |inflightBatches|
      ensures forall i :: 0 <= i < |vs| ==> vs[i] == inflightBatches[i].View()
    {
      seq(|inflightBatches|, i requires 0 <= i < |inflightBatches| reads this, inflightBatches => inflightBatches[i].View())
    }

    method RegisterBatch(frame: Frame, size: nat)
      requires size > 0
      modifies this`inflightBatches
      ensures |inflightBatches| == |old(inflightBatches)| + 1
      ensures Views() == old(Views()) + [NewBatch(frame, size, numPartialResults, streamsToBatch)]
      ensures inflightBatches[..|inflightBatches| - 1] == old(inflightBatches)
      ensures fresh(inflightBatches[|inflightBatches| - 1])
    {
      var batch := new InflightBatch(frame, size, numPartialResults, streamsToBatch);
      inflightBatches := inflightBatches + [batch];
    }

    method GetBatch(frame: Frame) returns (found: Option<nat>)
      ensures found == Lookup(Views(), frame)
    {
      var n := |inflightBatches|;
      if n == 0 {
        return None;
      }
      var frameMin := inflightBatches[0].firstFrame;
      var frameMax := inflightBatches[n - 1].lastFrame;
      if frame < frameMin || frame > frameMax {
        return None;
      }
      var i := 0;
      while i < n
        invariant i <= n
        invariant Scan(Views(), frame, i) == Lookup(Views(), frame)
      {
        if inflightBatches[i].firstFrame <= frame <= inflightBatches[i].lastFrame {
          return Some(i);
        }
        i := i + 1;
      }
      return None;
    }

    method CheckAndRemoveFirstBatch()
      modifies this`inflightBatches, if inflightBatches != [] then {inflightBatches[0]} else {}
      ensures if old(inflightBatches) != [] && old(AllDelivered(inflightBatches[0].View()))
              then inflightBatches == old(inflightBatches)[1..]
                   && old(inflightBatches)[0].View() == old(inflightBatches[0].View()).(removed := true)
              else inflightBatches == old(inflightBatches)
                   && (inflightBatches != [] ==> inflightBatches[0].View() == old(inflightBatches[0].View()))
    {
      if |inflightBatches| > 0 {
        var batch := inflightBatches[0];
        var done := batch.CheckAllDelivered();
        if done {
          batch.removed := true;
          inflightBatches := inflightBatches[1..];
        }
      }
    }

    method SendBatchShutterCbsLocked(batch: InflightBatch)
      modifies this`callbacks, batch
      ensures batch.View() == SendShutters(old(batch.View())).0
      ensures callbacks == old(callbacks) + SendShutters(old(batch.View())).1
    {
      if batch.shutterDelivered {
        return;
      }
      callbacks := callbacks + [Notified(batch.shutterMsgs)];
      batch.shutterDelivered := true;
      batch.shutterMsgs := [];
    }

    /** Finds the longest queue to send, or that one of the streams is not batched. */
    method QueueDepth(batch: InflightBatch, streams: seq<StreamId>) returns (depth: Option<nat>)
      ensures depth == if Covers(batch.batchBufs, streams) then Some(Depth(batch.batchBufs, streams)) else None
    {
      var size := 0;
      for i := 0 to |streams|
        invariant Covers(batch.batchBufs, streams[..i]) && size == Depth(batch.batchBufs, streams[..i])
      {
        assert streams[..i + 1][..i] == streams[..i];
        if streams[i] !in batch.batchBufs {
          return None;
        }
        var bb := batch.batchBufs[streams[i]];
        if !bb.delivered && |bb.buffers| > size {
          size := |bb.buffers|;
        }
      }
      assert streams[..|streams|] == streams;
      return Some(size);
    }

    method MarkStreams(batch: InflightBatch, streams: seq<StreamId>, clear: bool)
      requires Covers(batch.batchBufs, streams)
      modifies batch`batchBufs
      ensures batch.batchBufs == MarkDelivered(old(batch.batchBufs), streams, clear)
    {
      for i := 0 to |streams|
        invariant batch.batchBufs == MarkDelivered(old(batch.batchBufs), streams[..i], clear)
      {
        var s := streams[i];
        var bb := batch.batchBufs[s];
        batch.batchBufs := batch.batchBufs[s := BufferBatch(true, if clear then [] else bb.buffers)];
      }
      assert streams[..|streams|] == streams;
    }

    method PickBuffers(batch: InflightBatch, streams: seq<StreamId>, i: nat) returns (outBufs: seq<StreamBuffer>)
      requires Covers(batch.batchBufs, streams)
      ensures outBufs == Pick(batch.batchBufs, streams, i)
    {
      outBufs := [];
      for j := 0 to |streams|
        invariant outBufs == Pick(batch.batchBufs, streams[..j], i)
      {
        assert streams[..j + 1][..j] == streams[..j];
        var bb := batch.batchBufs[streams[j]];
        if !bb.delivered && i < |bb.buffers| {
          outBufs := outBufs + [bb.buffers[i]];
        }
      }
      assert streams[..|streams|] == streams;
    }

    method SendBatchBuffersLocked(batch: InflightBatch, streams: seq<StreamId>)
      modifies this`callbacks, batch
      ensures batch.View() == SendBuffers(old(batch.View()), streams).0
      ensures callbacks == old(callbacks) + SendBuffers(old(batch.View()), streams).1
    {
      var depth := QueueDepth(batch, streams);
      if depth.None? {
        return;
      }
      if depth.value == 0 {
        MarkStreams(batch, streams, false);
        return;
      }
      var results: seq<CaptureResult> := [];
      for i := 0 to depth.value
        invariant batch.View() == old(batch.View()) && callbacks == old(callbacks)
        invariant results == BufferResults(batch.firstFrame, batch.batchBufs, streams, i)
      {
        var outBufs := PickBuffers(batch, streams, i);
        results := results + [CaptureResult(batch.firstFrame + i, 0, [], outBufs, None)];
      }
      callbacks := callbacks + [Captured(results)];
      MarkStreams(batch, streams, true);
    }

    method SendBatchMetadataLocked(batch: InflightBatch, lastPartial: nat)
      modifies this`callbacks, batch
      ensures batch.View() == SendMetadata(old(batch.View()), lastPartial).0
      ensures callbacks == old(callbacks) + SendMetadata(old(batch.View()), lastPartial).1
    {
      if lastPartial <= batch.partialResultProgress {
        return;
      }
      var results: seq<CaptureResult> := [];
      for p := 0 to lastPartial + 1
        invariant results == MetaResults(batch.resultMds, p)
      {
        if p in batch.resultMds {
          var mds := batch.resultMds[p];
          for i := 0 to |mds|
            invariant results == MetaResults(batch.resultMds, p) + MetaResultsOf(p, mds)[..i]
          {
            results := results + [CaptureResult(mds[i].0, p, mds[i].1, [], None)];
          }
        }
      }
      callbacks := callbacks + [Captured(results)];
      batch.partialResultProgress := lastPartial;
      batch.resultMds := map p | p in batch.resultMds && p > lastPartial :: batch.resultMds[p];
    }

    /** notify, for a shutter whose batch was found, under the batch's lock. */
    method NotifyShutterLocked(batch: InflightBatch, msg: NotifyMsg)
      modifies this`callbacks, batch
      ensures batch.View() == QueueShutter(old(batch.View()), msg).0
      ensures callbacks == old(callbacks) + QueueShutter(old(batch.View()), msg).1
    {
      if batch.removed {
        callbacks := callbacks + [Notified([msg])];
        return;
      }
      batch.shutterMsgs := batch.shutterMsgs + [msg];
      if msg.frame == batch.lastFrame {
        SendBatchShutterCbsLocked(batch);
      }
    }

    method FlushBatchLocked(batch: InflightBatch)
      modifies this`callbacks, batch
      ensures batch.View() == Flush(old(batch.View()), streamsToBatch, numPartialResults).0
      ensures callbacks == old(callbacks) + Flush(old(batch.View()), streamsToBatch, numPartialResults).1
    {
      SendBatchShutterCbsLocked(batch);
      SendBatchBuffersLocked(batch, streamsToBatch);
      SendBatchMetadataLocked(batch, numPartialResults);
      batch.removed := true;
    }

    ghost predicate DistinctBatches()
      reads this
    {
      forall i, j :: 0 <= i < j < |inflightBatches| ==> inflightBatches[i] != inflightBatches[j]
    }

    /** notify, for an error whose batch was found at batchIdx: flush and drop all batches up to it.
        The queue must still be long enough, as BatcherRuns.Defined says. */
    method NotifyErrorLocked(batchIdx: nat, msg: NotifyMsg, ghost views: seq<Batch>)
      requires batchIdx < |inflightBatches| && DistinctBatches() && IsViewOf(views, inflightBatches)
      modifies this`inflightBatches, this`callbacks, inflightBatches
      ensures inflightBatches == old(inflightBatches)[batchIdx + 1..]
      ensures var after := FlushThenSend(AsState(views, 0, old(callbacks)), batchIdx + 1, Message(msg));
              callbacks == after.callbacks && IsViewOf(after.batches, old(inflightBatches))
    {
      ghost var s := AsState(views, 0, callbacks);
      FlushFirstBatches(batchIdx + 1, inflightBatches, s);
      SendMessage(msg);
    }

    method SendMessage(msg: NotifyMsg)
      modifies this`callbacks
      ensures callbacks == old(callbacks) + [Notified([msg])]
    {
      callbacks := callbacks + [Notified([msg])];
    }

    /** The loop of the error path: flush and pop the first n batches. */
    method FlushFirstBatches(n: nat, ghost batches: seq<InflightBatch>, ghost s: Batcher)
      requires Matches(s, batches) && s.head == 0 && n <= |batches|
      modifies this`inflightBatches, this`callbacks, batches
      ensures Matches(FlushFront(s, n), batches)
    {
      var i := 0;
      while i < n
        invariant i <= n && Matches(FlushFront(s, i), batches)
        modifies this`inflightBatches, this`callbacks, batches
      {
        FlushFirstLocked(batches, FlushFront(s, i));
        i := i + 1;
      }
    }

    /** The queue holds the batches from s.head on, and the callbacks and views are those of s. */
    ghost predicate Matches(s: Batcher, batches: seq<InflightBatch>)
      reads this, batches
    {
      && s == AsState(s.batches, s.head, callbacks)
      && IsViewOf(s.batches, batches)
      && s.head <= |batches| && inflightBatches == batches[s.head..]
      && forall i, j :: 0 <= i < j < |batches| ==> batches[i] != batches[j]
    }

    method FlushFirstLocked(ghost batches: seq<InflightBatch>, ghost s: Batcher)
      requires Matches(s, batches) && s.head < |batches|
      modifies this`inflightBatches, this`callbacks, batches
      ensures Matches(FlushFirst(s), batches)
    {
      var batch := inflightBatches[0];
      assert batch == batches[s.head];
      FlushBatchLocked(batch);
      inflightBatches := inflightBatches[1..];
      ViewOfOneChanged(s.batches, batches, s.head);
    }

    static lemma {:induction false} ViewOfOneChanged(views: seq<Batch>, batches: seq<InflightBatch>, h: nat)
      requires |views| == |batches| && h < |batches|
      requires forall k :: 0 <= k < |views| && k != h ==> batches[k].View() == views[k]
      ensures IsViewOf(views[h := batches[h].View()], batches)
    {
    }

    /** This batcher as a state of the state machine, without its calls and history. */
    ghost function AsState(views: seq<Batch>, head: nat, cbs: seq<Callback>): Batcher
      reads this`streamsToBatch, this`numPartialResults
    {
      Batcher(views, head, streamsToBatch, numPartialResults, map[], [], cbs)
    }

    static ghost predicate IsViewOf(views: seq<Batch>, batches: seq<InflightBatch>)
      reads batches
    {
      |views| == |batches| && forall k :: 0 <= k < |views| ==> batches[k].View() == views[k]
    }

    /** processCaptureResult, for a result whose batch was found, under the batch's lock. */
    method ProcessCaptureResultLocked(batch: InflightBatch, result: CaptureResult)
      modifies this`callbacks, batch
      ensures batch.View() == ProcessResult(old(batch.View()), result).0
      ensures callbacks == old(callbacks) + ProcessResult(old(batch.View()), result).1
    {
      if batch.removed {
        callbacks := callbacks + [Captured([result])];
        return;
      }
      var filled := QueueResultLocked(batch, result);
      if result.frame == batch.lastFrame {
        SendUpLocked(batch, result, filled);
      }
    }

    method QueueResultLocked(batch: InflightBatch, result: CaptureResult) returns (filled: seq<StreamId>)
      modifies this`callbacks, batch
      ensures batch.View() == Queued(old(batch.View()), result)
      ensures callbacks == old(callbacks) + SendUnbatched(old(batch.batchBufs), result)
      ensures filled == BatchedStreams(old(batch.batchBufs), result.outputs)
    {
      if result.metadata != [] {
        var queued := if result.partial in batch.resultMds then batch.resultMds[result.partial] else [];
        batch.resultMds := batch.resultMds[result.partial := queued + [(result.frame, result.metadata)]];
      }
      var unbatched;
      filled, unbatched := QueueOutputs(batch, result.outputs);
      if unbatched != [] || result.input.Some? {
        callbacks := callbacks + [Captured([CaptureResult(result.frame, 0, [], unbatched, result.input)])];
      }
    }

    method SendUpLocked(batch: InflightBatch, result: CaptureResult, filled: seq<StreamId>)
      modifies this`callbacks, batch
      ensures batch.View() == SendAtLastFrame(old(batch.View()), result, filled).0
      ensures callbacks == old(callbacks) + SendAtLastFrame(old(batch.View()), result, filled).1
    {
      if result.partial > 0 {
        SendBatchMetadataLocked(batch, result.partial);
      }
      if filled != [] {
        SendBatchBuffersLocked(batch, filled);
      }
    }

    method QueueOutputs(batch: InflightBatch, outputs: seq<StreamBuffer>)
      returns (filled: seq<StreamId>, unbatched: seq<StreamBuffer>)
      modifies batch`batchBufs
      ensures batch.batchBufs == QueueBuffers(old(batch.batchBufs), outputs)
      ensures filled == BatchedStreams(old(batch.batchBufs), outputs)
      ensures unbatched == NotBatched(old(batch.batchBufs), outputs)
    {
      filled, unbatched := [], [];
      for i := 0 to |outputs|
        invariant batch.batchBufs == QueueBuffers(old(batch.batchBufs), outputs[..i])
        invariant filled == BatchedStreams(old(batch.batchBufs), outputs[..i])
        invariant unbatched == NotBatched(old(batch.batchBufs), outputs[..i])
      {
        assert outputs[..i + 1][..i] == outputs[..i];
        var buffer := outputs[i];
        if buffer.streamId in batch.batchBufs {
          var bb := batch.batchBufs[buffer.streamId];
          batch.batchBufs := batch.batchBufs[buffer.streamId := bb.(buffers := bb.buffers + [buffer])];
          filled := filled + [buffer.streamId];
        } else {
          unbatched := unbatched + [buffer];
        }
      }
      assert outputs[..|outputs|] == outputs;
    }
  }
}
