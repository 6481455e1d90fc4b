/**
 The result batcher as a state machine.  Each lock-protected section is one step; the two sections
 of a HAL callback (look the batch up, then work on it under its own lock) are separate steps, so
 calls interleave freely with each other, with registrations and with removals.
 */
module BatcherRuns {
  import opened Basics
  import opened ResultBatch
  import opened ResultBatchConservation

  type CallId = nat

  datatype Event = Message(msg: NotifyMsg) | Result(result: CaptureResult)

  /** What getBatch returned: the index in the queue at that time, and the batch itself, named by
      its registration number. */
  datatype Target = Target(index: nat, batch: nat)

  datatype Call = Call(event: Event, target: Option<Target>)

  /** batches: all ever registered; those from `head` on are queued.  reported: the events in the
      order in which they were worked on.  callbacks: what the framework received. */
  datatype Batcher = Batcher(batches: seq<Batch>, head: nat, streams: seq<StreamId>, numPartial: nat,
                             calls: map<CallId, Call>, reported: seq<Event>, callbacks: seq<Callback>)

  datatype Step =
    | SetStreams(streams: seq<StreamId>)
    | Register(first: Frame, size: nat)
    | Begin(id: CallId, event: Event)
    | Finish(id: CallId)
    | CheckAndRemoveFirst

  function Initial(streams: seq<StreamId>, numPartial: nat): Batcher {
    Batcher([], 0, streams, numPartial, map[], [], [])
  }

  function FrameOf(e: Event): Frame {
    match e case Message(m) => m.frame case Result(r) => r.frame
  }

  predicate Contains(b: Batch, frame: Frame) {
    b.first <= frame <= b.last
  }

  // ---------------------------------------------------------------- steps

  function Scan(queue: seq<Batch>, frame: Frame, i: nat): Option<nat>
    requires i <= |queue|
    decreases |queue| - i
  {
    if i == |queue| then None
    else if Contains(queue[i], frame) then Some(i)
    else Scan(queue, frame, i + 1)
  }

  /** getBatch, with its range shortcut. */
  function Lookup(queue: seq<Batch>, frame: Frame): Option<nat> {
    if queue == [] then None
    else if frame < queue[0].first || frame > queue[|queue| - 1].last then None
    else Scan(queue, frame, 0)
  }

  function FindTarget(s: Batcher, frame: Frame): Option<Target>
    requires s.head <= |s.batches|
  {
    match Lookup(s.batches[s.head..], frame)
    case None => None
    case Some(i) => Some(Target(i, s.head + i))
  }

  function DeliverDirectly(e: Event): Callback {
    match e case Message(m) => Notified([m]) case Result(r) => Captured([r])
  }

  /** Flush and pop the first batch of the queue. */
  function FlushFirst(s: Batcher): Batcher
    requires s.head < |s.batches|
  {
    var (b, c) := Flush(s.batches[s.head], s.streams, s.numPartial);
    s.(batches := s.batches[s.head := b], head := s.head + 1, callbacks := s.callbacks + c)
  }

  /** ... and n batches. */
  function FlushFront(s: Batcher, n: nat): (r: Batcher)
    requires s.head + n <= |s.batches|
    ensures r.head == s.head + n && |r.batches| == |s.batches|
    decreases n
  {
    if n == 0 then s else FlushFirst(FlushFront(s, n - 1))
  }

  /** An error stops the batching of n batches and then goes up itself. */
  function FlushThenSend(s: Batcher, n: nat, e: Event): Batcher
    requires s.head + n <= |s.batches|
  {
    var flushed := FlushFront(s, n);
    flushed.(callbacks := flushed.callbacks + [DeliverDirectly(e)])
  }

  function OnBatch(b: Batch, e: Event): (Batch, seq<Callback>) {
    match e case Message(m) => QueueShutter(b, m) case Result(r) => ProcessResult(b, r)
  }

  predicate IsError(e: Event) {
    e.Message? && e.msg.ErrorMsg?
  }

  /** The part of a call that runs after the lookup. */
  function Work(s: Batcher, c: Call): Batcher
    requires c.target.Some? ==> c.target.value.batch < |s.batches|
    requires c.target.Some? && IsError(c.event) ==> s.head + c.target.value.index < |s.batches|
  {
    var done := s.(reported := s.reported + [c.event]);
    if c.target.None? then
      done.(callbacks := s.callbacks + [DeliverDirectly(c.event)])
    else if IsError(c.event) then
      FlushThenSend(done, c.target.value.index + 1, c.event)
    else
      var t := c.target.value.batch;
      var (b, cbs) := OnBatch(s.batches[t], c.event);
      done.(batches := s.batches[t := b], callbacks := s.callbacks + cbs)
  }

  function RemoveFirst(s: Batcher): Batcher {
    if s.head < |s.batches| && AllDelivered(s.batches[s.head]) then
      s.(batches := s.batches[s.head := s.batches[s.head].(removed := true)], head := s.head + 1)
    else s
  }

  /** When the code's own operations are defined.  An error call pops as many batches as its lookup
      said, from whatever the queue holds by then; popping an empty queue is undefined in C++. */
  ghost predicate Defined(s: Batcher, step: Step) {
    match step
    case SetStreams(_) => true
    case Register(_, size) => size > 0
    case Begin(id, _) => id !in s.calls && s.head <= |s.batches|
    case Finish(id) =>
      && id in s.calls
      && var c := s.calls[id];
         && (c.target.Some? ==> c.target.value.batch < |s.batches|)
         && (c.target.Some? && IsError(c.event) ==> s.head + c.target.value.index < |s.batches|)
    case CheckAndRemoveFirst => true
  }

  function Next(s: Batcher, step: Step): Batcher
    requires Defined(s, step)
  {
    match step
    case SetStreams(streams) => s.(streams := streams)
    case Register(first, size) => s.(batches := s.batches + [NewBatch(first, size, s.numPartial, s.streams)])
    case Begin(id, e) => s.(calls := s.calls[id := Call(e, FindTarget(s, FrameOf(e)))])
    case Finish(id) => Work(s.(calls := s.calls - {id}), s.calls[id])
    case CheckAndRemoveFirst => RemoveFirst(s)
  }

  // ---------------------------------------------------------------- what the HAL and the client promise

  /** How many results for frames lo..hi with a buffer on stream st have been worked on. */
  ghost function Arrived(reported: seq<Event>, st: StreamId, lo: Frame, hi: Frame): nat {
    if reported == [] then 0
    else
      var e := reported[|reported| - 1];
      Arrived(reported[..|reported| - 1], st, lo, hi)
      + if e.Result? && lo <= e.result.frame <= hi && HasStream(e.result.outputs, st) then 1 else 0
  }

  /** Buffers of a batched stream come one per frame, in frame order; a partial index does not exceed
      the declared number; and no metadata follows the last frame's final partial result. */
  ghost predicate ResultInOrder(reported: seq<Event>, b: Batch, r: CaptureResult) {
    && DistinctStreams(r.outputs)
    && (forall i :: 0 <= i < |r.outputs| && r.outputs[i].streamId in b.bufs ==>
          b.first + Arrived(reported, r.outputs[i].streamId, b.first, b.last) == r.frame)
    && r.partial <= b.numPartial
    && (r.metadata != [] ==> b.numPartial > 0 && !Concluded(reported, b))
  }

  /** The last frame's final partial result has come. */
  ghost predicate Concluded(reported: seq<Event>, b: Batch) {
    Reached(reported, b.last, b.numPartial)
  }

  /** A result for this frame with at least this partial index. */
  predicate IsPartialOf(e: Event, frame: Frame, partial: nat) {
    e.Result? && e.result.frame == frame && e.result.partial >= partial
  }

  ghost predicate Reached(reported: seq<Event>, last: Frame, partial: nat) {
    exists k :: 0 <= k < |reported| && IsPartialOf(reported[k], last, partial)
  }

  predicate IsShutterFor(e: Event, frame: Frame) {
    e.Message? && e.msg.ShutterMsg? && e.msg.frame == frame
  }

  /** The shutter of a batch's last frame has come. */
  ghost predicate ShutterEnded(reported: seq<Event>, last: Frame) {
    exists k :: 0 <= k < |reported| && IsShutterFor(reported[k], last)
  }

  /** No shutter of a batch follows its last frame's; before that one they come in any order. */
  ghost predicate ShutterInTime(reported: seq<Event>, b: Batch) {
    !ShutterEnded(reported, b.last)
  }

  ghost predicate EventInOrder(reported: seq<Event>, b: Batch, e: Event) {
    match e
    case Result(r) => ResultInOrder(reported, b, r)
    case Message(m) => m.ShutterMsg? ==> ShutterInTime(reported, b)
  }

  /** What is reported for a batch in flight is in order; nothing is asked of one that left the queue. */
  ghost predicate InOrder(s: Batcher, e: Event) {
    forall i :: s.head <= i < |s.batches| && Contains(s.batches[i], FrameOf(e)) ==> EventInOrder(s.reported, s.batches[i], e)
  }

  /** An error finds the streams that still have buffers in the batches it flushes. */
  ghost predicate Reaches(s: Batcher, c: Call) {
    IsError(c.event) && c.target.Some? ==>
      forall i :: s.head <= i <= s.head + c.target.value.index && i < |s.batches| ==> FlushReaches(s.batches[i], s.streams)
  }

  /** A batch is registered before anything of its frames is reported, frame numbers grow, and the two
      promises above hold. */
  ghost predicate Promised(s: Batcher, step: Step) {
    match step
    case SetStreams(streams) => Distinct(streams)
    case Register(first, size) =>
      && size > 0
      && (forall i :: 0 <= i < |s.batches| ==> s.batches[i].last < first)
      && (forall k :: 0 <= k < |s.reported| ==> !(first <= FrameOf(s.reported[k]) < first + size))
      && (forall id :: id in s.calls ==> !(first <= FrameOf(s.calls[id].event) < first + size))
    case Begin(_, _) => true
    case Finish(id) => id in s.calls ==> InOrder(s, s.calls[id].event) && Reaches(s, s.calls[id])
    case CheckAndRemoveFirst => true
  }

  ghost predicate Admissible(s: Batcher, steps: seq<Step>)
    decreases |steps|
  {
    steps == [] || (Defined(s, steps[0]) && Promised(s, steps[0]) && Admissible(Next(s, steps[0]), steps[1..]))
  }

  ghost function Exec(s: Batcher, steps: seq<Step>): Batcher
    requires Admissible(s, steps)
    decreases |steps|
  {
    if steps == [] then s else Exec(Next(s, steps[0]), steps[1..])
  }

  // ---------------------------------------------------------------- the invariant

  ghost function InEvent(e: Event, x: Item): nat {
    match e case Message(m) => InMessages([m], x) case Result(r) => InResult(r, x)
  }

  ghost function InEvents(es: seq<Event>, x: Item): nat {
    if es == [] then 0 else InEvents(es[..|es| - 1], x) + InEvent(es[|es| - 1], x)
  }

  ghost function PendingAll(batches: seq<Batch>, x: Item): nat {
    if batches == [] then 0 else PendingAll(batches[..|batches| - 1], x) + Pending(batches[|batches| - 1], x)
  }

  /** Everything reported is delivered or still queued: once, under its own frame. */
  ghost predicate Balanced(s: Batcher) {
    forall x :: InEvents(s.reported, x) == InCallbacks(s.callbacks, x) + PendingAll(s.batches, x)
  }

  /** What a queued batch knows about the past: a stream's buffers are marked delivered exactly when
      all have come, the shutters exactly when the last frame's has come, and the progress is the
      highest partial index that the last frame has reached. */
  ghost predicate Remembers(b: Batch, reported: seq<Event>) {
    && (forall st :: st in b.bufs ==>
          if b.bufs[st].delivered then Arrived(reported, st, b.first, b.last) == b.last - b.first + 1
          else Arrived(reported, st, b.first, b.last) == |b.bufs[st].buffers| <= b.last - b.first)
    && (b.shutterDelivered <==> ShutterEnded(reported, b.last))
    && (forall p: nat :: p > 0 ==> (Reached(reported, b.last, p) <==> p <= b.progress))
  }

  /** The event that completes the batch for x, and with which x and all before it go out: the last
      frame's shutter, the last frame's buffer of the stream, or a result of the last frame that
      raises the partial index to x's or beyond. */
  ghost predicate Sends(reported: seq<Event>, last: Frame, e: Event, x: Item) {
    match x
    case MsgItem(_) => IsShutterFor(e, last)
    case BufferItem(_, buffer) => IsPartialOf(e, last, 0) && HasStream(e.result.outputs, buffer.streamId)
    case MetaItem(_, p, _) =>
      IsPartialOf(e, last, p) && e.result.partial > 0 && !Reached(reported, last, e.result.partial)
    case InputItem(_, _) => false
  }

  /** How many of the reported x no such event has followed yet. */
  ghost function Waiting(reported: seq<Event>, last: Frame, x: Item): nat {
    if reported == [] then 0
    else
      var rest, e := reported[..|reported| - 1], reported[|reported| - 1];
      if Sends(rest, last, e, x) then 0 else Waiting(rest, last, x) + InEvent(e, x)
  }

  /** The items that a batch collects; everything else is passed on at once. */
  ghost predicate Collects(b: Batch, x: Item) {
    match x
    case MsgItem(m) => m.ShutterMsg? && Contains(b, m.frame)
    case BufferItem(f, buffer) => Contains(b, f) && buffer.streamId in b.bufs
    case MetaItem(f, _, _) => Contains(b, f)
    case InputItem(_, _) => false
  }

  /** A batch holds exactly what it collects and nothing has sent yet. */
  ghost predicate HoldsTheWaiting(b: Batch, reported: seq<Event>) {
    forall x :: Pending(b, x) == if Collects(b, x) then Waiting(reported, b.last, x) else 0
  }

  /** The queue holds sorted, disjoint frame intervals. */
  ghost predicate Sorted(batches: seq<Batch>) {
    && (forall i :: 0 <= i < |batches| ==> batches[i].first <= batches[i].last)
    && (forall i, j :: 0 <= i < j < |batches| ==> batches[i].last < batches[j].first)
  }

  ghost predicate LiveOk(s: Batcher, b: Batch) {
    && WellFormed(b) && Remembers(b, s.reported) && HoldsTheWaiting(b, s.reported)
    && b.numPartial == s.numPartial
  }

  ghost predicate CallOk(s: Batcher, c: Call) {
    match c.target
    case Some(t) => t.batch < |s.batches| && t.index <= t.batch && Contains(s.batches[t.batch], FrameOf(c.event))
    case None => forall i :: s.head <= i < |s.batches| ==> !Contains(s.batches[i], FrameOf(c.event))
  }

  ghost predicate Inv(s: Batcher) {
    && s.head <= |s.batches|
    && Distinct(s.streams)
    && Sorted(s.batches)
    && (forall i :: 0 <= i < |s.batches| ==> (s.batches[i].removed <==> i < s.head))
    && (forall i :: s.head <= i < |s.batches| ==> LiveOk(s, s.batches[i]))
    && (forall i, x :: 0 <= i < s.head ==> Pending(s.batches[i], x) == 0)
    && (forall id :: id in s.calls ==> CallOk(s, s.calls[id]))
    && Balanced(s)
  }

  // ---------------------------------------------------------------- lookup

  lemma {:induction false} ScanCorrect(queue: seq<Batch>, frame: Frame, i: nat)
    requires i <= |queue|
    ensures match Scan(queue, frame, i)
            case Some(j) => i <= j < |queue| && Contains(queue[j], frame)
            case None => forall j :: i <= j < |queue| ==> !Contains(queue[j], frame)
    decreases |queue| - i
  {
    if i < |queue| {
      ScanCorrect(queue, frame, i + 1);
    }
  }

  /** getBatch finds the one queued batch of a frame, and answers "not batched" only if there is none. */
  lemma {:induction false} LookupExact(queue: seq<Batch>, frame: Frame)
    requires Sorted(queue)
    ensures match Lookup(queue, frame)
            case Some(i) => i < |queue| && forall j :: 0 <= j < |queue| ==> (Contains(queue[j], frame) <==> j == i)
            case None => forall j :: 0 <= j < |queue| ==> !Contains(queue[j], frame)
  {
    ScanCorrect(queue, frame, 0);
    if queue != [] {
      assert forall j :: 0 <= j < |queue| ==> queue[0].first <= queue[j].first && queue[j].last <= queue[|queue| - 1].last;
    }
  }

  // ---------------------------------------------------------------- counting over the run

  lemma {:induction false} InEventsSnoc(es: seq<Event>, e: Event, x: Item)
    ensures InEvents(es + [e], x) == InEvents(es, x) + InEvent(e, x)
  {
    assert (es + [e])[..|es|] == es;
  }

  lemma {:induction false} ArrivedSnoc(es: seq<Event>, e: Event, st: StreamId, lo: Frame, hi: Frame)
    ensures Arrived(es + [e], st, lo, hi)
         == Arrived(es, st, lo, hi) + if e.Result? && lo <= e.result.frame <= hi && HasStream(e.result.outputs, st) then 1 else 0
  {
    assert (es + [e])[..|es|] == es;
  }

  lemma {:induction false} NoneArrived(es: seq<Event>, st: StreamId, lo: Frame, hi: Frame)
    requires forall k :: 0 <= k < |es| ==> !(lo <= FrameOf(es[k]) <= hi)
    ensures Arrived(es, st, lo, hi) == 0
  {
    if es != [] {
      NoneArrived(es[..|es| - 1], st, lo, hi);
    }
  }

  lemma {:induction false} PendingAllUpdate(batches: seq<Batch>, i: nat, b: Batch, x: Item)
    requires i < |batches|
    ensures PendingAll(batches[i := b], x) + Pending(batches[i], x) == PendingAll(batches, x) + Pending(b, x)
  {
    var n := |batches| - 1;
    if i < n {
      PendingAllUpdate(batches[..n], i, b, x);
      assert batches[i := b][..n] == batches[..n][i := b];
    } else {
      assert batches[i := b][..n] == batches[..n];
    }
  }

  lemma {:induction false} PendingAllSnoc(batches: seq<Batch>, b: Batch, x: Item)
    ensures PendingAll(batches + [b], x) == PendingAll(batches, x) + Pending(b, x)
  {
    assert (batches + [b])[..|batches|] == batches;
  }

  lemma {:induction false} DirectItems(e: Event, x: Item)
    ensures InCallback(DeliverDirectly(e), x) == InEvent(e, x)
  {
    match e
    case Message(m) => OneMessage(m, x); OneCallback(Notified([m]), x);
    case Result(r) => OneResult(r, x); OneCallback(Captured([r]), x);
  }
}
