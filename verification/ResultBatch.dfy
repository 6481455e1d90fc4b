/**
 The camera result batcher's data and what each of its lock-protected sections computes
 (camera/aidl/device/CameraDeviceSession.cpp, class ResultBatcher).

 A batch covers the frames first..last.  Shutters and metadata are queued with their frame
 number; buffers of batched streams are queued WITHOUT one and get their frame number back
 from their position when the batch is sent.
 */
module ResultBatch {
  import opened Basics

  newtype byte = x: int | 0 <= x < 256

  type StreamId = int
  type Frame = nat
  type Metadata = seq<byte>

  datatype StreamBuffer = StreamBuffer(streamId: StreamId, bufferId: nat, status: int, releaseFence: int)

  datatype NotifyMsg =
    | ShutterMsg(frame: Frame, timestamp: int)
    | ErrorMsg(frame: Frame, errorStreamId: StreamId, errorCode: int)

  /** input.None? stands for an input buffer whose stream id is -1. */
  datatype CaptureResult = CaptureResult(frame: Frame, partial: nat, metadata: Metadata,
                                         outputs: seq<StreamBuffer>, input: Option<StreamBuffer>)

  /** One call into the camera framework. */
  datatype Callback =
    | Notified(msgs: seq<NotifyMsg>)
    | Captured(results: seq<CaptureResult>)

  datatype BufferBatch = BufferBatch(delivered: bool, buffers: seq<StreamBuffer>)

  datatype Batch = Batch(first: Frame, last: Frame,
                         shutterDelivered: bool, shutters: seq<NotifyMsg>,
                         bufs: map<StreamId, BufferBatch>,
                         numPartial: nat, progress: nat,
                         mds: map<nat, seq<(Frame, Metadata)>>,
                         removed: bool)

  /** The smallest things that must arrive exactly once, each with the frame it belongs to. */
  datatype Item =
    | MsgItem(msg: NotifyMsg)
    | BufferItem(frame: Frame, buffer: StreamBuffer)
    | MetaItem(frame: Frame, partial: nat, metadata: Metadata)
    | InputItem(frame: Frame, input: StreamBuffer)

  // ---------------------------------------------------------------- what a callback delivers

  /** How often x occurs in s. */
  function Count<T(==)>(s: seq<T>, x: T): nat {
    if s == [] then 0 else Count(s[..|s| - 1], x) + (if s[|s| - 1] == x then 1 else 0)
  }

  function InMessages(msgs: seq<NotifyMsg>, x: Item): nat {
    if x.MsgItem? then Count(msgs, x.msg) else 0
  }

  /** How often a capture result carries x.  Empty metadata is no metadata. */
  function InResult(r: CaptureResult, x: Item): nat {
    match x
    case MsgItem(_) => 0
    case BufferItem(f, buffer) => if f == r.frame then Count(r.outputs, buffer) else 0
    case MetaItem(f, p, md) => if md != [] && (f, p, md) == (r.frame, r.partial, r.metadata) then 1 else 0
    case InputItem(f, buffer) => if f == r.frame && r.input == Some(buffer) then 1 else 0
  }

  function InResults(rs: seq<CaptureResult>, x: Item): nat {
    if rs == [] then 0 else InResults(rs[..|rs| - 1], x) + InResult(rs[|rs| - 1], x)
  }

  function InCallback(cb: Callback, x: Item): nat {
    match cb
    case Notified(msgs) => InMessages(msgs, x)
    case Captured(rs) => InResults(rs, x)
  }

  /** How often x has been delivered by these callbacks. */
  function InCallbacks(cbs: seq<Callback>, x: Item): nat {
    if cbs == [] then 0 else InCallbacks(cbs[..|cbs| - 1], x) + InCallback(cbs[|cbs| - 1], x)
  }

  // ---------------------------------------------------------------- what a batch still holds

  /** How often x is waiting in the buffer queues of a batch that starts at `first`: a buffer at
      position i of its stream's queue stands for frame first + i. */
  function PendingBuffer(first: Frame, bufs: map<StreamId, BufferBatch>, x: Item): nat {
    if x.BufferItem? && x.buffer.streamId in bufs then
      var q := bufs[x.buffer.streamId].buffers;
      if first <= x.frame < first + |q| && q[x.frame - first] == x.buffer then 1 else 0
    else 0
  }

  function PendingMeta(mds: map<nat, seq<(Frame, Metadata)>>, x: Item): nat {
    if x.MetaItem? && x.partial in mds then Count(mds[x.partial], (x.frame, x.metadata)) else 0
  }

  function Pending(b: Batch, x: Item): nat {
    InMessages(b.shutters, x) + PendingBuffer(b.first, b.bufs, x) + PendingMeta(b.mds, x)
  }

  // ---------------------------------------------------------------- the sections

  /** registerBatch */
  function NewBatch(first: Frame, size: nat, numPartial: nat, streams: seq<StreamId>): Batch
    requires size > 0
  {
    Batch(first, first + size - 1, false, [],
          map s | s in streams :: BufferBatch(false, []), numPartial, 0, map[], false)
  }

  predicate AllDelivered(b: Batch) {
    b.shutterDelivered && b.progress >= b.numPartial && forall s :: s in b.bufs ==> b.bufs[s].delivered
  }

  /** sendBatchShutterCbsLocked */
  function SendShutters(b: Batch): (Batch, seq<Callback>) {
    if b.shutterDelivered then (b, [])
    else (b.(shutterDelivered := true, shutters := []), [Notified(b.shutters)])
  }

  /** All the streams are batched. */
  predicate Covers(bufs: map<StreamId, BufferBatch>, streams: seq<StreamId>) {
    forall i :: 0 <= i < |streams| ==> streams[i] in bufs
  }

  /** The longest queue among the given streams that still has something to send. */
  function Depth(bufs: map<StreamId, BufferBatch>, streams: seq<StreamId>): nat
    requires Covers(bufs, streams)
  {
    if streams == [] then 0
    else
      var rest := Depth(bufs, streams[..|streams| - 1]);
      var bb := bufs[streams[|streams| - 1]];
      if !bb.delivered && |bb.buffers| > rest then |bb.buffers| else rest
  }

  /** The i-th buffers of the given streams, in stream order. */
  function Pick(bufs: map<StreamId, BufferBatch>, streams: seq<StreamId>, i: nat): seq<StreamBuffer>
    requires Covers(bufs, streams)
  {
    if streams == [] then []
    else
      var rest := Pick(bufs, streams[..|streams| - 1], i);
      var bb := bufs[streams[|streams| - 1]];
      if !bb.delivered && i < |bb.buffers| then rest + [bb.buffers[i]] else rest
  }

  /** The buffer-only result for position i of a batch. */
  function BufferResult(first: Frame, bufs: map<StreamId, BufferBatch>, streams: seq<StreamId>, i: nat): CaptureResult
    requires Covers(bufs, streams)
  {
    CaptureResult(first + i, 0, [], Pick(bufs, streams, i), None)
  }

  function BufferResults(first: Frame, bufs: map<StreamId, BufferBatch>, streams: seq<StreamId>, n: nat): (rs: seq<CaptureResult>)
    requires Covers(bufs, streams)
    ensures |rs| == n
  {
    if n == 0 then []
    else BufferResults(first, bufs, streams, n - 1) + [BufferResult(first, bufs, streams, n - 1)]
  }

  function MarkDelivered(bufs: map<StreamId, BufferBatch>, streams: seq<StreamId>, clear: bool): map<StreamId, BufferBatch> {
    map s | s in bufs ::
      if s in streams then BufferBatch(true, if clear then [] else bufs[s].buffers) else bufs[s]
  }

  /** sendBatchBuffersLocked: nothing at all happens if one of the streams is not batched. */
  function SendBuffers(b: Batch, streams: seq<StreamId>): (Batch, seq<Callback>) {
    if !Covers(b.bufs, streams) then (b, [])
    else
      var depth := Depth(b.bufs, streams);
      if depth == 0 then (b.(bufs := MarkDelivered(b.bufs, streams, false)), [])
      else (b.(bufs := MarkDelivered(b.bufs, streams, true)),
            [Captured(BufferResults(b.first, b.bufs, streams, depth))])
  }

  function MetaResultsOf(partial: nat, mds: seq<(Frame, Metadata)>): seq<CaptureResult> {
    seq(|mds|, i requires 0 <= i < |mds| => CaptureResult(mds[i].0, partial, mds[i].1, [], None))
  }

  /** The queued metadata of all partial indices below n, by ascending index. */
  function MetaResults(mds: map<nat, seq<(Frame, Metadata)>>, n: nat): seq<CaptureResult> {
    if n == 0 then []
    else if n - 1 in mds then MetaResults(mds, n - 1) + MetaResultsOf(n - 1, mds[n - 1])
    else MetaResults(mds, n - 1)
  }

  /** sendBatchMetadataLocked */
  function SendMetadata(b: Batch, lastPartial: nat): (Batch, seq<Callback>) {
    if lastPartial <= b.progress then (b, [])
    else (b.(progress := lastPartial, mds := map p | p in b.mds && p > lastPartial :: b.mds[p]),
          [Captured(MetaResults(b.mds, lastPartial + 1))])
  }

  /** The part of notify that runs for a shutter under the batch's lock. */
  function QueueShutter(b: Batch, msg: NotifyMsg): (Batch, seq<Callback>) {
    if b.removed then (b, [Notified([msg])])
    else
      var b1 := b.(shutters := b.shutters + [msg]);
      if msg.frame == b.last then SendShutters(b1) else (b1, [])
  }

  /** The flush of one batch when an error is notified. */
  function Flush(b: Batch, streams: seq<StreamId>, numPartial: nat): (Batch, seq<Callback>) {
    var (b1, c1) := SendShutters(b);
    var (b2, c2) := SendBuffers(b1, streams);
    var (b3, c3) := SendMetadata(b2, numPartial);
    (b3.(removed := true), c1 + c2 + c3)
  }

  function QueueMetadata(mds: map<nat, seq<(Frame, Metadata)>>, r: CaptureResult): map<nat, seq<(Frame, Metadata)>> {
    if r.metadata == [] then mds
    else mds[r.partial := (if r.partial in mds then mds[r.partial] else []) + [(r.frame, r.metadata)]]
  }

  function QueueBuffers(bufs: map<StreamId, BufferBatch>, outputs: seq<StreamBuffer>): (q: map<StreamId, BufferBatch>)
    ensures q.Keys == bufs.Keys
  {
    if outputs == [] then bufs
    else
      var q := QueueBuffers(bufs, outputs[..|outputs| - 1]);
      var x := outputs[|outputs| - 1];
      if x.streamId in q then q[x.streamId := q[x.streamId].(buffers := q[x.streamId].buffers + [x])] else q
  }

  function BatchedStreams(bufs: map<StreamId, BufferBatch>, outputs: seq<StreamBuffer>): seq<StreamId> {
    if outputs == [] then []
    else
      var x := outputs[|outputs| - 1];
      var rest := BatchedStreams(bufs, outputs[..|outputs| - 1]);
      if x.streamId in bufs then rest + [x.streamId] else rest
  }

  function NotBatched(bufs: map<StreamId, BufferBatch>, outputs: seq<StreamBuffer>): seq<StreamBuffer> {
    if outputs == [] then []
    else
      var x := outputs[|outputs| - 1];
      var rest := NotBatched(bufs, outputs[..|outputs| - 1]);
      if x.streamId in bufs then rest else rest + [x]
  }

  /** What processCaptureResult sends up at once, unbatched. */
  function SendUnbatched(bufs: map<StreamId, BufferBatch>, r: CaptureResult): seq<Callback> {
    var now := NotBatched(bufs, r.outputs);
    if now == [] && r.input.None? then []
    else [Captured([CaptureResult(r.frame, 0, [], now, r.input)])]
  }

  function SendAtLastFrame(b: Batch, r: CaptureResult, filled: seq<StreamId>): (Batch, seq<Callback>) {
    var (b1, c1) := if r.partial > 0 then SendMetadata(b, r.partial) else (b, []);
    var (b2, c2) := if filled != [] then SendBuffers(b1, filled) else (b1, []);
    (b2, c1 + c2)
  }

  /** A batch with a result's metadata and batched buffers queued. */
  function Queued(b: Batch, r: CaptureResult): Batch {
    b.(mds := QueueMetadata(b.mds, r), bufs := QueueBuffers(b.bufs, r.outputs))
  }

  /** The part of processCaptureResult that runs under the batch's lock. */
  function ProcessResult(b: Batch, r: CaptureResult): (Batch, seq<Callback>) {
    if b.removed then (b, [Captured([r])])
    else
      var b1 := Queued(b, r);
      var c1 := SendUnbatched(b.bufs, r);
      if r.frame == b.last then
        var (b2, c2) := SendAtLastFrame(b1, r, BatchedStreams(b.bufs, r.outputs));
        (b2, c1 + c2)
      else (b1, c1)
  }
}
