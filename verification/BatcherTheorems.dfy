/**
 Every run of the result batcher: exactly-once delivery under the right frame, whatever the
 interleaving and wherever errors cut batches short.
 */
module BatcherTheorems {
  import opened Basics
  import opened ResultBatch
  import opened ResultBatchConservation
  import opened BatcherRuns

  /** The invariant without the balance of items. */
  ghost predicate Structure(s: Batcher) {
    && s.head <= |s.batches|
    && Distinct(s.streams)
    && Sorted(s.batches)
    && (forall i :: 0 <= i < |s.batches| ==> (s.batches[i].removed <==> i < s.head))
    && (forall i :: s.head <= i < |s.batches| ==> LiveOk(s, s.batches[i]))
    && (forall i, x :: 0 <= i < s.head ==> Pending(s.batches[i], x) == 0)
    && (forall id :: id in s.calls ==> CallOk(s, s.calls[id]))
  }

  /** What has been delivered or is still queued. */
  ghost function Accounted(s: Batcher, x: Item): nat {
    InCallbacks(s.callbacks, x) + PendingAll(s.batches, x)
  }

  // ---------------------------------------------------------------- the past, one event later

  lemma {:induction false} RemembersElsewhere(b: Batch, reported: seq<Event>, e: Event)
    requires Remembers(b, reported)
    requires !Contains(b, FrameOf(e)) || IsError(e)
    requires b.first <= b.last
    ensures Remembers(b, reported + [e])
  {
    forall st | st in b.bufs
      ensures Arrived(reported + [e], st, b.first, b.last) == Arrived(reported, st, b.first, b.last)
    {
      ArrivedSnoc(reported, e, st, b.first, b.last);
    }
    ShutterEndedSnoc(reported, e, b.last);
    forall p: nat ensures Reached(reported + [e], b.last, p) <==> Reached(reported, b.last, p) {
      ReachedSnoc(reported, e, b.last, p);
    }
  }

  lemma {:induction false} ShutterEndedSnoc(reported: seq<Event>, e: Event, last: Frame)
    ensures ShutterEnded(reported + [e], last) <==> ShutterEnded(reported, last) || IsShutterFor(e, last)
  {
    var all := reported + [e];
    assert all[|reported|] == e && forall k :: 0 <= k < |reported| ==> all[k] == reported[k];
  }

  lemma {:induction false} ReachedSnoc(reported: seq<Event>, e: Event, last: Frame, partial: nat)
    ensures Reached(reported + [e], last, partial) <==> Reached(reported, last, partial) || IsPartialOf(e, last, partial)
  {
    var all := reported + [e];
    assert all[|reported|] == e && forall k :: 0 <= k < |reported| ==> all[k] == reported[k];
  }

  /** In-order reporting is what makes a result fit its batch. */
  lemma {:induction false} InOrderFits(b: Batch, reported: seq<Event>, r: CaptureResult)
    requires WellFormed(b) && Remembers(b, reported)
    requires Contains(b, r.frame) && ResultInOrder(reported, b, r)
    ensures ResultFits(b, r)
  {
  }

  lemma {:induction false} RemembersResult(b: Batch, reported: seq<Event>, r: CaptureResult)
    requires WellFormed(b) && Remembers(b, reported) && !b.removed
    requires Contains(b, r.frame) && ResultInOrder(reported, b, r)
    ensures Remembers(ProcessResult(b, r).0, reported + [Result(r)])
  {
    InOrderFits(b, reported, r);
    ProcessResultShape(b, r);
    var b' := ProcessResult(b, r).0;
    var e := Result(r);
    forall st | st in b.bufs
      ensures Arrived(reported + [e], st, b.first, b.last)
           == if b'.bufs[st].delivered then b.last - b.first + 1 else |b'.bufs[st].buffers|
    {
      ArrivedSnoc(reported, e, st, b.first, b.last);
      if HasStream(r.outputs, st) {
        var i :| 0 <= i < |r.outputs| && r.outputs[i].streamId == st;
      }
    }
    ShutterEndedSnoc(reported, e, b.last);
    forall p: nat | p > 0 ensures Reached(reported + [e], b.last, p) <==> p <= b'.progress {
      ReachedSnoc(reported, e, b.last, p);
    }
  }

  lemma {:induction false} ShutterNotYetSent(b: Batch, reported: seq<Event>, m: NotifyMsg)
    requires Remembers(b, reported) && Contains(b, m.frame) && ShutterInTime(reported, b)
    ensures !b.shutterDelivered
  {
  }

  lemma {:induction false} RemembersShutter(b: Batch, reported: seq<Event>, m: NotifyMsg)
    requires WellFormed(b) && Remembers(b, reported) && !b.removed
    requires m.ShutterMsg? && Contains(b, m.frame) && ShutterInTime(reported, b)
    ensures WellFormed(QueueShutter(b, m).0) && Remembers(QueueShutter(b, m).0, reported + [Message(m)])
  {
    ShutterNotYetSent(b, reported, m);
    QueueShutterConserves(b, m, MsgItem(m));
    var b' := QueueShutter(b, m).0;
    var e := Message(m);
    forall st | st in b.bufs
      ensures Arrived(reported + [e], st, b.first, b.last) == Arrived(reported, st, b.first, b.last)
    {
      ArrivedSnoc(reported, e, st, b.first, b.last);
    }
    ShutterEndedSnoc(reported, e, b.last);
    forall p: nat ensures Reached(reported + [e], b.last, p) <==> Reached(reported, b.last, p) {
      ReachedSnoc(reported, e, b.last, p);
    }
  }

  // ---------------------------------------------------------------- what a batch holds, one event later

  lemma {:induction false} WaitingSnoc(reported: seq<Event>, e: Event, last: Frame, x: Item)
    ensures Waiting(reported + [e], last, x)
         == if Sends(reported, last, e, x) then 0 else Waiting(reported, last, x) + InEvent(e, x)
  {
    assert (reported + [e])[..|reported|] == reported;
  }

  lemma {:induction false} NotOfThisBatch(b: Batch, e: Event, x: Item)
    requires b.first <= b.last && Collects(b, x) && (!Contains(b, FrameOf(e)) || IsError(e))
    ensures InEvent(e, x) == 0 && forall reported :: !Sends(reported, b.last, e, x)
  {
    if e.Message? {
      OneMessage(e.msg, x);
    }
  }

  lemma {:induction false} HoldsElsewhere(b: Batch, reported: seq<Event>, e: Event)
    requires HoldsTheWaiting(b, reported) && b.first <= b.last
    requires !Contains(b, FrameOf(e)) || IsError(e)
    ensures HoldsTheWaiting(b, reported + [e])
  {
    forall x | Collects(b, x) ensures Waiting(reported + [e], b.last, x) == Waiting(reported, b.last, x) {
      NotOfThisBatch(b, e, x);
      WaitingSnoc(reported, e, b.last, x);
    }
  }

  lemma {:induction false} NoneWaiting(b: Batch, reported: seq<Event>, x: Item)
    requires forall k :: 0 <= k < |reported| ==> !Contains(b, FrameOf(reported[k]))
    requires b.first <= b.last && Collects(b, x)
    ensures Waiting(reported, b.last, x) == 0
  {
    if reported != [] {
      NotOfThisBatch(b, reported[|reported| - 1], x);
      NoneWaiting(b, reported[..|reported| - 1], x);
    }
  }

  /** A shutter: queued, or sent with all before it. */
  lemma {:induction false} ShutterPending(b: Batch, m: NotifyMsg, x: Item)
    requires WellFormed(b) && !b.removed && !b.shutterDelivered
    ensures Pending(QueueShutter(b, m).0, x)
         == if x.MsgItem? && m.frame == b.last then 0 else Pending(b, x) + InMessages([m], x)
  {
    OneMessage(m, x);
    if x.MsgItem? {
      CountSnoc(b.shutters, m, x.msg);
    }
  }

  lemma {:induction false} HoldsShutter(b: Batch, reported: seq<Event>, m: NotifyMsg)
    requires WellFormed(b) && !b.removed && !b.shutterDelivered && HoldsTheWaiting(b, reported)
    requires m.ShutterMsg? && Contains(b, m.frame)
    ensures HoldsTheWaiting(QueueShutter(b, m).0, reported + [Message(m)])
  {
    var b' := QueueShutter(b, m).0;
    forall x ensures Pending(b', x) == if Collects(b', x) then Waiting(reported + [Message(m)], b.last, x) else 0 {
      ShutterPending(b, m, x);
      OneMessage(m, x);
      WaitingSnoc(reported, Message(m), b.last, x);
    }
  }

  /** The metadata that sending up to an index leaves. */
  function MetadataAbove(mds: map<nat, seq<(Frame, Metadata)>>, partial: nat): map<nat, seq<(Frame, Metadata)>> {
    map p | p in mds && p > partial :: mds[p]
  }

  lemma {:induction false} LastFrameMetadata(b: Batch, r: CaptureResult, filled: seq<StreamId>)
    ensures SendAtLastFrame(b, r, filled).0.mds
         == if r.partial > b.progress then MetadataAbove(b.mds, r.partial) else b.mds
  {
  }

  /** The metadata that a result leaves queued. */
  lemma {:induction false} MetadataLeft(b: Batch, r: CaptureResult)
    requires !b.removed
    ensures ProcessResult(b, r).0.mds
         == if r.frame == b.last && r.partial > b.progress then MetadataAbove(QueueMetadata(b.mds, r), r.partial)
            else QueueMetadata(b.mds, r)
  {
    LastFrameMetadata(Queued(b, r), r, BatchedStreams(b.bufs, r.outputs));
  }

  /** A result's metadata: queued, or sent with all up to its index. */
  lemma {:induction false} MetadataPending(b: Batch, r: CaptureResult, x: Item)
    requires WellFormed(b) && !b.removed && x.MetaItem?
    ensures PendingMeta(ProcessResult(b, r).0.mds, x)
         == if r.frame == b.last && r.partial > b.progress && x.partial <= r.partial then 0
            else PendingMeta(b.mds, x) + InResult(r, x)
  {
    MetadataLeft(b, r);
    QueueMetadataConserves(b.mds, r, x);
  }

  lemma {:induction false} NoSuchStream(outputs: seq<StreamBuffer>, o: StreamBuffer)
    requires !HasStream(outputs, o.streamId)
    ensures Count(outputs, o) == 0
  {
    if outputs != [] {
      assert !HasStream(outputs[..|outputs| - 1], o.streamId);
      NoSuchStream(outputs[..|outputs| - 1], o);
    }
  }

  lemma {:induction false} NoneUnbatched(bufs: map<StreamId, BufferBatch>, outputs: seq<StreamBuffer>, o: StreamBuffer)
    requires o.streamId in bufs
    ensures Count(NotBatched(bufs, outputs), o) == 0
  {
    if outputs != [] {
      NoneUnbatched(bufs, outputs[..|outputs| - 1], o);
    }
  }

  /** A result's buffer of a batched stream: queued, or sent with all before it. */
  lemma {:induction false} BufferPending(b: Batch, r: CaptureResult, x: Item)
    requires WellFormed(b) && !b.removed && ResultFits(b, r)
    requires x.BufferItem? && x.buffer.streamId in b.bufs
    ensures Pending(ProcessResult(b, r).0, x)
         == if r.frame == b.last && HasStream(r.outputs, x.buffer.streamId) then 0
            else Pending(b, x) + InResult(r, x)
  {
    ProcessResultShape(b, r);
    if !HasStream(r.outputs, x.buffer.streamId) {
      NoSuchStream(r.outputs, x.buffer);
    } else if r.frame != b.last {
      QueueBuffersConserves(b.first, b.bufs, r.frame, r.outputs, x);
      NoneUnbatched(b.bufs, r.outputs, x.buffer);
    }
  }

  lemma {:induction false} OthersPending(b: Batch, r: CaptureResult, x: Item)
    requires WellFormed(b) && !b.removed && ResultFits(b, r)
    requires x.MsgItem? || x.InputItem? || (x.BufferItem? && x.buffer.streamId !in b.bufs)
    ensures Pending(ProcessResult(b, r).0, x) == Pending(b, x)
  {
    ProcessResultShape(b, r);
  }

  lemma {:induction false} HoldsResultItem(b: Batch, reported: seq<Event>, r: CaptureResult, x: Item)
    requires WellFormed(b) && !b.removed && Remembers(b, reported) && ResultFits(b, r) && Contains(b, r.frame)
    requires Pending(b, x) == if Collects(b, x) then Waiting(reported, b.last, x) else 0
    ensures var b' := ProcessResult(b, r).0;
            Pending(b', x) == if Collects(b, x) then Waiting(reported + [Result(r)], b.last, x) else 0
  {
    WaitingSnoc(reported, Result(r), b.last, x);
    if x.MetaItem? {
      MetadataPending(b, r, x);
    } else if x.BufferItem? && x.buffer.streamId in b.bufs {
      BufferPending(b, r, x);
    } else {
      OthersPending(b, r, x);
    }
  }

  /** What b' holds is said in terms of b, which collects the same. */
  lemma {:induction false} HoldsAsSuccessor(b: Batch, b': Batch, reported: seq<Event>)
    requires b'.first == b.first && b'.last == b.last && b'.bufs.Keys == b.bufs.Keys
    requires forall x :: Pending(b', x) == if Collects(b, x) then Waiting(reported, b.last, x) else 0
    ensures HoldsTheWaiting(b', reported)
  {
    assert forall x :: Collects(b', x) <==> Collects(b, x);
  }

  lemma {:induction false} HoldsResult(b: Batch, reported: seq<Event>, r: CaptureResult)
    requires WellFormed(b) && !b.removed && Remembers(b, reported) && HoldsTheWaiting(b, reported)
    requires ResultFits(b, r) && Contains(b, r.frame)
    ensures HoldsTheWaiting(ProcessResult(b, r).0, reported + [Result(r)])
  {
    forall x
      ensures Pending(ProcessResult(b, r).0, x) == if Collects(b, x) then Waiting(reported + [Result(r)], b.last, x) else 0
    {
      HoldsResultItem(b, reported, r, x);
    }
    ProcessResultShape(b, r);
    HoldsAsSuccessor(b, ProcessResult(b, r).0, reported + [Result(r)]);
  }

  // ---------------------------------------------------------------- replacing one batch

  /** The frames and the identity of a batch never change. */
  ghost predicate SameSpan(b: Batch, b': Batch) {
    b'.first == b.first && b'.last == b.last && b'.removed == b.removed
  }

  lemma {:induction false} UpdateKeepsStructure(s: Batcher, t: nat, b': Batch, e: Event)
    requires Structure(s) && t < |s.batches| && SameSpan(s.batches[t], b')
    requires Contains(s.batches[t], FrameOf(e))
    requires t < s.head ==> b' == s.batches[t]
    requires t >= s.head ==>
      LiveOk(s.(reported := s.reported + [e]), b')
    ensures Structure(s.(reported := s.reported + [e], batches := s.batches[t := b']))
  {
    var s' := s.(reported := s.reported + [e], batches := s.batches[t := b']);
    forall i | s.head <= i < |s'.batches|
      ensures LiveOk(s', s'.batches[i])
    {
      if i != t {
        assert !Contains(s.batches[i], FrameOf(e));
        RemembersElsewhere(s.batches[i], s.reported, e);
        HoldsElsewhere(s.batches[i], s.reported, e);
      }
    }
    forall id | id in s'.calls
      ensures CallOk(s', s'.calls[id])
    {
      assert CallOk(s, s.calls[id]);
    }
  }

  // ---------------------------------------------------------------- steps

  lemma {:induction false} OnBatchAccounts(s: Batcher, t: nat, e: Event, x: Item)
    requires Structure(s) && t < |s.batches| && !IsError(e)
    requires Contains(s.batches[t], FrameOf(e)) && (t >= s.head ==> EventInOrder(s.reported, s.batches[t], e))
    ensures var (b, cbs) := OnBatch(s.batches[t], e);
            Pending(s.batches[t], x) + InEvent(e, x) == Pending(b, x) + InCallbacks(cbs, x)
  {
    var b := s.batches[t];
    match e
    case Message(m) =>
      if !b.removed {
        ShutterNotYetSent(b, s.reported, m);
      }
      QueueShutterConserves(b, m, x);
    case Result(r) =>
      if !b.removed {
        InOrderFits(b, s.reported, r);
      }
      ProcessResultConserves(b, r, x);
  }

  lemma {:induction false} OnBatchLive(s: Batcher, t: nat, e: Event)
    requires Structure(s) && s.head <= t < |s.batches| && !IsError(e)
    requires Contains(s.batches[t], FrameOf(e)) && EventInOrder(s.reported, s.batches[t], e)
    ensures var b := OnBatch(s.batches[t], e).0;
            SameSpan(s.batches[t], b) && LiveOk(s.(reported := s.reported + [e]), b)
  {
    var b := s.batches[t];
    match e
    case Message(m) =>
      ShutterNotYetSent(b, s.reported, m);
      QueueShutterConserves(b, m, MsgItem(m));
      RemembersShutter(b, s.reported, m);
      HoldsShutter(b, s.reported, m);
    case Result(r) =>
      InOrderFits(b, s.reported, r);
      ProcessResultShape(b, r);
      RemembersResult(b, s.reported, r);
      HoldsResult(b, s.reported, r);
  }

  /** A removed batch passes an event straight through. */
  lemma {:induction false} OnBatchRemoved(b: Batch, e: Event)
    requires b.removed
    ensures OnBatch(b, e).0 == b
  {
  }

  lemma {:induction false} WorkOnBatchKeepsInv(s: Batcher, t: nat, e: Event)
    requires Inv(s) && t < |s.batches| && !IsError(e)
    requires Contains(s.batches[t], FrameOf(e)) && (t >= s.head ==> EventInOrder(s.reported, s.batches[t], e))
    ensures var (b, cbs) := OnBatch(s.batches[t], e);
            Inv(s.(reported := s.reported + [e], batches := s.batches[t := b], callbacks := s.callbacks + cbs))
  {
    var (b, cbs) := OnBatch(s.batches[t], e);
    var s' := s.(reported := s.reported + [e], batches := s.batches[t := b], callbacks := s.callbacks + cbs);
    if t < s.head {
      OnBatchRemoved(s.batches[t], e);
    } else {
      OnBatchLive(s, t, e);
    }
    UpdateKeepsStructure(s, t, b, e);
    assert Structure(s.(reported := s.reported + [e], batches := s.batches[t := b]));
    CallbacksDoNotMatter(s.(reported := s.reported + [e], batches := s.batches[t := b]), s'.callbacks);
    forall x
      ensures InEvents(s'.reported, x) == Accounted(s', x)
    {
      OnBatchAccounts(s, t, e, x);
      InEventsSnoc(s.reported, e, x);
      InCallbacksConcat(s.callbacks, cbs, x);
      PendingAllUpdate(s.batches, t, b, x);
    }
  }

  lemma {:induction false} CallbacksDoNotMatter(s: Batcher, cbs: seq<Callback>)
    requires Structure(s)
    ensures Structure(s.(callbacks := cbs))
  {
    var s' := s.(callbacks := cbs);
    forall i | s'.head <= i < |s'.batches| ensures LiveOk(s', s'.batches[i]) {
      assert LiveOk(s, s.batches[i]);
    }
    forall id | id in s'.calls ensures CallOk(s', s'.calls[id]) {
      assert CallOk(s, s.calls[id]);
    }
  }

  /** An event that touches no queued batch: structure and accounts stay. */
  lemma {:induction false} PassedByKeepsStructure(s: Batcher, e: Event)
    requires Structure(s)
    requires IsError(e) || forall i :: s.head <= i < |s.batches| ==> !Contains(s.batches[i], FrameOf(e))
    ensures Structure(s.(reported := s.reported + [e]))
  {
    var s' := s.(reported := s.reported + [e]);
    forall i | s.head <= i < |s.batches| ensures LiveOk(s', s'.batches[i]) {
      RemembersElsewhere(s.batches[i], s.reported, e);
      HoldsElsewhere(s.batches[i], s.reported, e);
    }
    forall id | id in s'.calls ensures CallOk(s', s'.calls[id]) {
      assert CallOk(s, s.calls[id]);
    }
  }

  /** What flushing k batches keeps, besides the accounts. */
  ghost predicate Flushed(s: Batcher, s': Batcher, k: nat) {
    && s'.reported == s.reported && s'.calls == s.calls && s'.streams == s.streams
    && s'.head == s.head + k && |s'.batches| == |s.batches|
    && forall i :: s.head + k <= i < |s.batches| ==> s'.batches[i] == s.batches[i]
  }

  lemma {:induction false} PopAccounts(s: Batcher, b: Batch, c: seq<Callback>, x: Item)
    requires s.head < |s.batches| && Pending(b, x) == 0 && InCallbacks(c, x) == Pending(s.batches[s.head], x)
    ensures Accounted(s.(batches := s.batches[s.head := b], head := s.head + 1, callbacks := s.callbacks + c), x) == Accounted(s, x)
  {
    InCallbacksConcat(s.callbacks, c, x);
    PendingAllUpdate(s.batches, s.head, b, x);
  }

  lemma {:induction false} FlushFirstKeepsStructure(s: Batcher)
    requires Structure(s) && s.head < |s.batches| && FlushReaches(s.batches[s.head], s.streams)
    ensures Structure(FlushFirst(s))
  {
    var h := s.head;
    var (b, c) := Flush(s.batches[h], s.streams, s.numPartial);
    assert LiveOk(s, s.batches[h]);
    FlushStrandsNothingExact(s.batches[h], s.streams);
    FlushSpan(s.batches[h], s.streams, s.numPartial);
    PopKeepsStructure(s, b, s.callbacks + c);
  }

  lemma {:induction false} FlushFirstAccounts(s: Batcher, x: Item)
    requires s.head < |s.batches| && LiveOk(s, s.batches[s.head]) && Distinct(s.streams)
    requires FlushReaches(s.batches[s.head], s.streams)
    ensures Accounted(FlushFirst(s), x) == Accounted(s, x)
  {
    var (b, c) := Flush(s.batches[s.head], s.streams, s.numPartial);
    FlushDelivers(s.batches[s.head], s.streams, x);
    PopAccounts(s, b, c, x);
  }

  lemma {:induction false} FlushSpan(b: Batch, streams: seq<StreamId>, numPartial: nat)
    ensures var b' := Flush(b, streams, numPartial).0;
            b'.first == b.first && b'.last == b.last && b'.removed
  {
  }

  /** Popping the first batch once nothing is left in it. */
  lemma {:induction false} PopKeepsStructure(s: Batcher, b: Batch, cbs: seq<Callback>)
    requires Structure(s) && s.head < |s.batches|
    requires b.first == s.batches[s.head].first && b.last == s.batches[s.head].last && b.removed
    requires forall x :: Pending(b, x) == 0
    ensures Structure(s.(batches := s.batches[s.head := b], head := s.head + 1, callbacks := cbs))
  {
    var s' := s.(batches := s.batches[s.head := b], head := s.head + 1, callbacks := cbs);
    forall i | s'.head <= i < |s'.batches| ensures LiveOk(s', s'.batches[i]) {
      assert LiveOk(s, s.batches[i]);
    }
    forall id | id in s'.calls ensures CallOk(s', s'.calls[id]) {
      assert CallOk(s, s.calls[id]);
    }
  }

  /** The first n batches in the queue can be flushed without leaving a buffer behind. */
  ghost predicate FrontReached(s: Batcher, n: nat) {
    s.head + n <= |s.batches| && forall i :: s.head <= i < s.head + n ==> FlushReaches(s.batches[i], s.streams)
  }

  /** s' is s with k batches flushed, and the account of x is the same. */
  ghost predicate FlushedWell(s: Batcher, s': Batcher, k: nat, x: Item) {
    Structure(s') && Flushed(s, s', k) && Accounted(s', x) == Accounted(s, x)
  }

  lemma {:induction false} OneMoreFlushed(s: Batcher, s': Batcher, k: nat, x: Item)
    requires FrontReached(s, k + 1) && FlushedWell(s, s', k, x)
    ensures s'.head < |s'.batches| && FlushedWell(s, FlushFirst(s'), k + 1, x)
  {
    assert LiveOk(s', s'.batches[s'.head]);
    FlushFirstKeepsStructure(s');
    FlushFirstAccounts(s', x);
  }

  lemma {:induction false} FlushFrontKeeps(s: Batcher, n: nat, x: Item)
    requires Structure(s) && FrontReached(s, n)
    ensures FlushedWell(s, FlushFront(s, n), n, x)
  {
    var t, k := s, 0;
    while k < n
      invariant k <= n && t == FlushFront(s, k) && FlushedWell(s, t, k, x)
    {
      assert FrontReached(s, k + 1);
      OneMoreFlushed(s, t, k, x);
      t, k := FlushFirst(t), k + 1;
    }
  }

  lemma {:induction false} WorkErrorKeepsInv(s: Batcher, n: nat, e: Event)
    requires Inv(s) && IsError(e) && FrontReached(s, n)
    ensures Inv(FlushThenSend(s.(reported := s.reported + [e]), n, e))
  {
    var s1 := s.(reported := s.reported + [e]);
    PassedByKeepsStructure(s, e);
    FlushFrontKeeps(s1, n, MsgItem(e.msg));
    var s2 := FlushFront(s1, n);
    var s3 := s2.(callbacks := s2.callbacks + [DeliverDirectly(e)]);
    CallbacksDoNotMatter(s2, s3.callbacks);
    forall x ensures InEvents(s3.reported, x) == Accounted(s3, x) {
      FlushFrontKeeps(s1, n, x);
      InEventsSnoc(s.reported, e, x);
      DirectItems(e, x);
      InCallbacksSnoc(s2.callbacks, DeliverDirectly(e), x);
      assert Accounted(s1, x) == Accounted(s, x);
    }
  }

  lemma {:induction false} WorkDirectlyKeepsInv(s: Batcher, e: Event)
    requires Inv(s)
    requires forall i :: s.head <= i < |s.batches| ==> !Contains(s.batches[i], FrameOf(e))
    ensures Inv(s.(reported := s.reported + [e], callbacks := s.callbacks + [DeliverDirectly(e)]))
  {
    var s1 := s.(reported := s.reported + [e]);
    PassedByKeepsStructure(s, e);
    var s2 := s1.(callbacks := s.callbacks + [DeliverDirectly(e)]);
    CallbacksDoNotMatter(s1, s2.callbacks);
    forall x ensures InEvents(s2.reported, x) == Accounted(s2, x) {
      InEventsSnoc(s.reported, e, x);
      DirectItems(e, x);
      InCallbacksSnoc(s.callbacks, DeliverDirectly(e), x);
    }
  }

  lemma {:induction false} FinishKeepsInv(s: Batcher, id: CallId)
    requires Inv(s) && Defined(s, Finish(id)) && Promised(s, Finish(id))
    ensures Inv(Next(s, Finish(id)))
  {
    var c := s.calls[id];
    ForgetCall(s, id);
    assert CallOk(s, c);
    assert CallOk(s.(calls := s.calls - {id}), c);
    WorkKeepsInv(s.(calls := s.calls - {id}), c);
  }

  lemma {:induction false} WorkKeepsInv(s: Batcher, c: Call)
    requires Inv(s) && CallOk(s, c)
    requires c.target.Some? && IsError(c.event) ==> s.head + c.target.value.index < |s.batches|
    requires InOrder(s, c.event) && Reaches(s, c)
    ensures Inv(Work(s, c))
  {
    if c.target.None? {
      WorkUntargetedKeepsInv(s, c);
    } else if IsError(c.event) {
      WorkErrorCallKeepsInv(s, c);
    } else {
      WorkTargetKeepsInv(s, c);
    }
  }

  lemma {:induction false} WorkUntargetedKeepsInv(s: Batcher, c: Call)
    requires Inv(s) && CallOk(s, c) && c.target.None?
    ensures Inv(Work(s, c))
  {
    WorkDirectlyKeepsInv(s, c.event);
  }

  lemma {:induction false} WorkErrorCallKeepsInv(s: Batcher, c: Call)
    requires Inv(s) && CallOk(s, c) && c.target.Some? && IsError(c.event)
    requires s.head + c.target.value.index < |s.batches| && Reaches(s, c)
    ensures Inv(Work(s, c))
  {
    WorkErrorKeepsInv(s, c.target.value.index + 1, c.event);
  }

  lemma {:induction false} WorkTargetKeepsInv(s: Batcher, c: Call)
    requires Inv(s) && CallOk(s, c) && c.target.Some? && !IsError(c.event)
    requires c.target.value.batch >= s.head ==> EventInOrder(s.reported, s.batches[c.target.value.batch], c.event)
    ensures Inv(Work(s, c))
  {
    WorkOnBatchKeepsInv(s, c.target.value.batch, c.event);
  }

  lemma {:induction false} ForgetCall(s: Batcher, id: CallId)
    requires Inv(s)
    ensures Inv(s.(calls := s.calls - {id}))
  {
    var s' := s.(calls := s.calls - {id});
    forall i | s'.head <= i < |s'.batches| ensures LiveOk(s', s'.batches[i]) {
      assert LiveOk(s, s.batches[i]);
    }
    forall j | j in s'.calls ensures CallOk(s', s'.calls[j]) {
      assert CallOk(s, s.calls[j]);
    }
  }

  ghost predicate TargetExact(s: Batcher, frame: Frame, found: Option<Target>) {
    match found
    case Some(t) => t.batch == s.head + t.index < |s.batches|
                    && forall i :: s.head <= i < |s.batches| ==> (Contains(s.batches[i], frame) <==> i == t.batch)
    case None => forall i :: s.head <= i < |s.batches| ==> !Contains(s.batches[i], frame)
  }

  lemma {:induction false} QueueSorted(batches: seq<Batch>, head: nat)
    requires head <= |batches| && Sorted(batches)
    ensures Sorted(batches[head..])
  {
  }

  /** What the lookup in the queue says about the batches. */
  lemma {:induction false} FoundInQueue(s: Batcher, frame: Frame, i: nat)
    requires s.head <= |s.batches| && i < |s.batches| - s.head
    requires forall j :: 0 <= j < |s.batches[s.head..]| ==> (Contains(s.batches[s.head..][j], frame) <==> j == i)
    ensures TargetExact(s, frame, Some(Target(i, s.head + i)))
  {
    forall j | s.head <= j < |s.batches| ensures Contains(s.batches[j], frame) <==> j == s.head + i {
      assert s.batches[j] == s.batches[s.head..][j - s.head];
    }
  }

  lemma {:induction false} NotFoundInQueue(s: Batcher, frame: Frame)
    requires s.head <= |s.batches|
    requires forall j :: 0 <= j < |s.batches[s.head..]| ==> !Contains(s.batches[s.head..][j], frame)
    ensures TargetExact(s, frame, None)
  {
    forall j | s.head <= j < |s.batches| ensures !Contains(s.batches[j], frame) {
      assert s.batches[j] == s.batches[s.head..][j - s.head];
    }
  }

  lemma {:induction false} FindTargetExact(s: Batcher, frame: Frame)
    requires s.head <= |s.batches| && Sorted(s.batches)
    ensures TargetExact(s, frame, FindTarget(s, frame))
  {
    QueueSorted(s.batches, s.head);
    LookupExact(s.batches[s.head..], frame);
    match Lookup(s.batches[s.head..], frame)
    case Some(i) => FoundInQueue(s, frame, i);
    case None => NotFoundInQueue(s, frame);
  }

  lemma {:induction false} BeginKeepsInv(s: Batcher, id: CallId, e: Event)
    requires Inv(s) && Defined(s, Begin(id, e))
    ensures Inv(Next(s, Begin(id, e)))
  {
    var s' := Next(s, Begin(id, e));
    FindTargetExact(s, FrameOf(e));
    assert CallOk(s', s'.calls[id]);
    forall i | s'.head <= i < |s'.batches| ensures LiveOk(s', s'.batches[i]) {
      assert LiveOk(s, s.batches[i]);
    }
    forall j | j in s'.calls ensures CallOk(s', s'.calls[j]) {
      assert j != id ==> CallOk(s, s.calls[j]);
    }
  }

  lemma {:induction false} NewBatchLive(s: Batcher, first: Frame, size: nat)
    requires size > 0 && forall k :: 0 <= k < |s.reported| ==> !(first <= FrameOf(s.reported[k]) < first + size)
    ensures LiveOk(s, NewBatch(first, size, s.numPartial, s.streams))
  {
    var b := NewBatch(first, size, s.numPartial, s.streams);
    forall st | st in b.bufs ensures Arrived(s.reported, st, b.first, b.last) == 0 {
      NoneArrived(s.reported, st, b.first, b.last);
    }
    forall x | Collects(b, x) ensures Waiting(s.reported, b.last, x) == 0 {
      NoneWaiting(b, s.reported, x);
    }
  }

  lemma {:induction false} RegisterKeepsInv(s: Batcher, first: Frame, size: nat)
    requires Inv(s) && Promised(s, Register(first, size))
    ensures Inv(Next(s, Register(first, size)))
  {
    var b := NewBatch(first, size, s.numPartial, s.streams);
    var s' := Next(s, Register(first, size));
    NewBatchLive(s, first, size);
    forall i | s'.head <= i < |s'.batches| ensures LiveOk(s', s'.batches[i]) {
      assert LiveOk(s, s'.batches[i]);
    }
    forall j | j in s'.calls ensures CallOk(s', s'.calls[j]) {
      assert CallOk(s, s.calls[j]);
    }
    NewBatchBalances(s, b);
  }

  lemma {:induction false} NewBatchBalances(s: Batcher, b: Batch)
    requires Balanced(s) && forall x :: Pending(b, x) == 0
    ensures Balanced(s.(batches := s.batches + [b]))
  {
    forall x {
      PendingAllSnoc(s.batches, b, x);
    }
  }

  lemma {:induction false} RemoveFirstKeepsInv(s: Batcher)
    requires Inv(s)
    ensures Inv(RemoveFirst(s))
  {
    if s.head < |s.batches| && AllDelivered(s.batches[s.head]) {
      var b := s.batches[s.head];
      var b' := b.(removed := true);
      assert LiveOk(s, b);
      forall x ensures Pending(b', x) == 0 && PendingAll(s.batches[s.head := b'], x) == PendingAll(s.batches, x) {
        AllDeliveredHoldsNothing(b, x);
        PendingAllUpdate(s.batches, s.head, b', x);
      }
      PopKeepsStructure(s, b', s.callbacks);
      var s' := RemoveFirst(s);
      assert s' == s.(batches := s.batches[s.head := b'], head := s.head + 1, callbacks := s.callbacks);
    }
  }

  lemma {:induction false} SetStreamsKeepsInv(s: Batcher, streams: seq<StreamId>)
    requires Inv(s) && Promised(s, SetStreams(streams))
    ensures Inv(s.(streams := streams))
  {
    var s' := s.(streams := streams);
    forall i | s'.head <= i < |s'.batches| ensures LiveOk(s', s'.batches[i]) {
      assert LiveOk(s, s.batches[i]);
    }
    forall j | j in s'.calls ensures CallOk(s', s'.calls[j]) {
      assert CallOk(s, s.calls[j]);
    }
  }

  lemma {:induction false} NextKeepsInv(s: Batcher, step: Step)
    requires Inv(s) && Defined(s, step) && Promised(s, step)
    ensures Inv(Next(s, step))
  {
    match step
    case SetStreams(streams) => SetStreamsKeepsInv(s, streams);
    case Register(first, size) => RegisterKeepsInv(s, first, size);
    case Begin(id, e) => BeginKeepsInv(s, id, e);
    case Finish(id) => FinishKeepsInv(s, id);
    case CheckAndRemoveFirst => RemoveFirstKeepsInv(s);
  }

  lemma {:induction false} RunKeepsInv(s: Batcher, steps: seq<Step>)
    requires Inv(s) && Admissible(s, steps)
    ensures Inv(Exec(s, steps))
    decreases |steps|
  {
    if steps != [] {
      NextKeepsInv(s, steps[0]);
      RunKeepsInv(Next(s, steps[0]), steps[1..]);
    }
  }

  // ---------------------------------------------------------------- the theorems

  lemma {:induction false} InitialInv(streams: seq<StreamId>, numPartial: nat)
    requires Distinct(streams)
    ensures Inv(Initial(streams, numPartial))
  {
  }

  lemma {:induction false} NothingPending(batches: seq<Batch>, x: Item)
    requires forall i :: 0 <= i < |batches| ==> Pending(batches[i], x) == 0
    ensures PendingAll(batches, x) == 0
  {
    if batches != [] {
      NothingPending(batches[..|batches| - 1], x);
    }
  }

  lemma {:induction false} PendingInOne(batches: seq<Batch>, i: nat, x: Item)
    requires i < |batches| && forall j :: 0 <= j < |batches| && j != i ==> Pending(batches[j], x) == 0
    ensures PendingAll(batches, x) == Pending(batches[i], x)
  {
    var n := |batches| - 1;
    if i == n {
      NothingPending(batches[..n], x);
    } else {
      PendingInOne(batches[..n], i, x);
    }
  }

  /** Queued batches do not share frames, so at most one of them collects an item. */
  lemma {:induction false} CollectedOnce(s: Batcher, i: nat, x: Item)
    requires Inv(s) && s.head <= i < |s.batches| && Collects(s.batches[i], x)
    ensures PendingAll(s.batches, x) == Waiting(s.reported, s.batches[i].last, x)
  {
    assert LiveOk(s, s.batches[i]);
    forall j | 0 <= j < |s.batches| && j != i ensures Pending(s.batches[j], x) == 0 {
      if j >= s.head {
        assert LiveOk(s, s.batches[j]) && !Collects(s.batches[j], x);
      }
    }
    PendingInOne(s.batches, i, x);
  }

  /** The queued batch that collects x, if there is one. */
  ghost predicate InFlight(s: Batcher, i: int, x: Item) {
    s.head <= i < |s.batches| && Collects(s.batches[i], x)
  }

  /** EXACTLY ONCE.  At any point of any admissible run, every reported shutter, error, buffer, input
      buffer and partial metadata has been delivered or is queued, once, under the frame it was
      reported for.  Queued are exactly the items of a batch in flight that no event has sent yet:
      shutters wait for the last frame's shutter, buffers for their stream's last buffer, metadata for
      a result of the last frame that raises the partial index.  Once no batch is in flight, all
      have been delivered. */
  lemma {:induction false} ExactlyOnce(streams: seq<StreamId>, numPartial: nat, steps: seq<Step>, x: Item)
    requires Distinct(streams)
    requires Admissible(Initial(streams, numPartial), steps)
    ensures var s := Exec(Initial(streams, numPartial), steps);
            && InEvents(s.reported, x) == InCallbacks(s.callbacks, x) + PendingAll(s.batches, x)
            && (forall i :: InFlight(s, i, x) ==>
                  InCallbacks(s.callbacks, x) == InEvents(s.reported, x) - Waiting(s.reported, s.batches[i].last, x))
            && ((forall i :: !InFlight(s, i, x)) ==> InCallbacks(s.callbacks, x) == InEvents(s.reported, x))
            && (s.head == |s.batches| ==> InCallbacks(s.callbacks, x) == InEvents(s.reported, x))
  {
    InitialInv(streams, numPartial);
    RunKeepsInv(Initial(streams, numPartial), steps);
    var s := Exec(Initial(streams, numPartial), steps);
    if i :| InFlight(s, i, x) {
      forall j | InFlight(s, j, x)
        ensures InCallbacks(s.callbacks, x) == InEvents(s.reported, x) - Waiting(s.reported, s.batches[j].last, x)
      {
        CollectedOnce(s, j, x);
      }
    } else {
      NoneCollected(s, x);
    }
  }

  lemma {:induction false} NoneCollected(s: Batcher, x: Item)
    requires Inv(s) && forall i :: !InFlight(s, i, x)
    ensures PendingAll(s.batches, x) == 0
  {
    forall i | 0 <= i < |s.batches| ensures Pending(s.batches[i], x) == 0 {
      if i >= s.head {
        assert LiveOk(s, s.batches[i]) && !InFlight(s, i, x);
      }
    }
    NothingPending(s.batches, x);
  }

  /** QUEUE.  In every reachable state the queue holds sorted disjoint intervals, a batch is marked
      removed exactly when it is no longer queued, a removed batch strands nothing, and getBatch is exact. */
  lemma {:induction false} QueueExact(streams: seq<StreamId>, numPartial: nat, steps: seq<Step>, frame: Frame)
    requires Distinct(streams)
    requires Admissible(Initial(streams, numPartial), steps)
    ensures var s := Exec(Initial(streams, numPartial), steps);
            && s.head <= |s.batches| && Sorted(s.batches)
            && (forall i :: 0 <= i < |s.batches| ==> (s.batches[i].removed <==> i < s.head))
            && (forall i, x :: 0 <= i < |s.batches| && s.batches[i].removed ==> Pending(s.batches[i], x) == 0)
            && TargetExact(s, frame, FindTarget(s, frame))
  {
    InitialInv(streams, numPartial);
    RunKeepsInv(Initial(streams, numPartial), steps);
    FindTargetExact(Exec(Initial(streams, numPartial), steps), frame);
  }
}
