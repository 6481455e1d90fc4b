/**
 When a batch of the result batcher is complete: the events of its last frame deliver all it holds,
 without any error and before it leaves the queue; and when it leaves the queue.
 */
module BatcherCompletion {
  import opened Basics
  import opened ResultBatch
  import opened ResultBatchConservation
  import opened BatcherRuns
  import opened BatcherTheorems

  // ---------------------------------------------------------------- delivery

  /** All that the batch waits for has been reported. */
  ghost predicate Finished(reported: seq<Event>, b: Batch) {
    && ShutterEnded(reported, b.last)
    && (b.numPartial > 0 ==> Concluded(reported, b))
    && (forall st :: st in b.bufs ==> Arrived(reported, st, b.first, b.last) == b.last - b.first + 1)
  }

  lemma {:induction false} FinishedIsDelivered(s: Batcher, b: Batch)
    requires LiveOk(s, b)
    ensures b.shutterDelivered <==> ShutterEnded(s.reported, b.last)
    ensures b.numPartial > 0 ==> (b.progress >= b.numPartial <==> Concluded(s.reported, b))
    ensures forall st :: st in b.bufs ==>
              (b.bufs[st].delivered <==> Arrived(s.reported, st, b.first, b.last) == b.last - b.first + 1)
    ensures AllDelivered(b) <==> Finished(s.reported, b)
  {
  }

  /** A batch in flight has sent its shutters exactly when the last frame's shutter was reported, its
      metadata exactly when the last frame's final partial result was, and a stream's buffers exactly
      when the stream's buffers of all its frames were.  Once all have come it holds nothing, while
      it is still queued and without any error. */
  lemma {:induction false} DeliveredExactly(streams: seq<StreamId>, numPartial: nat, steps: seq<Step>, i: nat)
    requires Distinct(streams) && Admissible(Initial(streams, numPartial), steps)
    requires var s := Exec(Initial(streams, numPartial), steps); s.head <= i < |s.batches|
    ensures var s := Exec(Initial(streams, numPartial), steps);
            var b := s.batches[i];
            && (b.shutterDelivered <==> ShutterEnded(s.reported, b.last))
            && (b.numPartial > 0 ==> (b.progress >= b.numPartial <==> Concluded(s.reported, b)))
            && (forall st :: st in b.bufs ==>
                  (b.bufs[st].delivered <==> Arrived(s.reported, st, b.first, b.last) == b.last - b.first + 1))
            && (AllDelivered(b) <==> Finished(s.reported, b))
            && (Finished(s.reported, b) ==> forall x :: Pending(b, x) == 0)
  {
    InitialInv(streams, numPartial);
    RunKeepsInv(Initial(streams, numPartial), steps);
    var s := Exec(Initial(streams, numPartial), steps);
    var b := s.batches[i];
    assert LiveOk(s, b);
    FinishedIsDelivered(s, b);
    if Finished(s.reported, b) {
      forall x ensures Pending(b, x) == 0 {
        AllDeliveredHoldsNothing(b, x);
      }
    }
  }

  /** Every registered batch has left the queue or is finished. */
  ghost predicate AllFinished(s: Batcher) {
    forall i :: s.head <= i < |s.batches| ==> Finished(s.reported, s.batches[i])
  }

  /** In a run that ends with every batch finished, all that was reported has been delivered, exactly
      once and under its own frame, however many batches are still queued. */
  lemma {:induction false} FinishedRunDeliversAll(streams: seq<StreamId>, numPartial: nat, steps: seq<Step>, x: Item)
    requires Distinct(streams) && Admissible(Initial(streams, numPartial), steps)
    requires AllFinished(Exec(Initial(streams, numPartial), steps))
    ensures var s := Exec(Initial(streams, numPartial), steps);
            InCallbacks(s.callbacks, x) == InEvents(s.reported, x)
  {
    InitialInv(streams, numPartial);
    RunKeepsInv(Initial(streams, numPartial), steps);
    var s := Exec(Initial(streams, numPartial), steps);
    forall i | 0 <= i < |s.batches| ensures Pending(s.batches[i], x) == 0 {
      if i >= s.head {
        DeliveredExactly(streams, numPartial, steps, i);
      }
    }
    NothingPending(s.batches, x);
  }

  // ---------------------------------------------------------------- errors with steady streams

  ghost predicate SameStreams(b: Batch, streams: seq<StreamId>) {
    forall st :: st in streams <==> st in b.bufs
  }

  /** Every batch in flight has the streams that are batched now. */
  ghost predicate StreamsMatch(s: Batcher) {
    forall i :: s.head <= i < |s.batches| ==> SameStreams(s.batches[i], s.streams)
  }

  lemma {:induction false} SendingKeepsStreams(b: Batch, streams: seq<StreamId>)
    ensures SendBuffers(b, streams).0.bufs.Keys == b.bufs.Keys
  {
  }

  lemma {:induction false} EventKeepsStreams(b: Batch, e: Event)
    ensures OnBatch(b, e).0.bufs.Keys == b.bufs.Keys
  {
    if e.Result? {
      var r := e.result;
      var q := Queued(b, r);
      var b1 := if r.partial > 0 then SendMetadata(q, r.partial).0 else q;
      SendingKeepsStreams(b1, BatchedStreams(b.bufs, r.outputs));
    }
  }

  lemma {:induction false} FlushKeepsStreams(s: Batcher, n: nat, e: Event)
    requires Structure(s) && FrontReached(s, n) && StreamsMatch(s)
    ensures StreamsMatch(FlushThenSend(s, n, e))
  {
    FlushFrontKeeps(s, n, InputItem(0, StreamBuffer(0, 0, 0, 0)));
    SameBatchesMatch(s, FlushFront(s, n));
  }

  lemma {:induction false} ErrorKeepsStreams(s: Batcher, c: Call)
    requires Inv(s) && IsError(c.event) && c.target.Some? && Reaches(s, c) && StreamsMatch(s)
    requires c.target.value.batch < |s.batches| && s.head + c.target.value.index < |s.batches|
    ensures StreamsMatch(Work(s, c))
  {
    PassedByKeepsStructure(s, c.event);
    FlushKeepsStreams(s.(reported := s.reported + [c.event]), c.target.value.index + 1, c.event);
  }

  lemma {:induction false} WorkKeepsStreams(s: Batcher, c: Call)
    requires Inv(s) && CallOk(s, c) && Reaches(s, c) && StreamsMatch(s)
    requires c.target.Some? && IsError(c.event) ==> s.head + c.target.value.index < |s.batches|
    ensures StreamsMatch(Work(s, c))
  {
    if c.target.Some? {
      if IsError(c.event) {
        ErrorKeepsStreams(s, c);
      } else {
        EventKeepsStreams(s.batches[c.target.value.batch], c.event);
      }
    }
  }

  lemma {:induction false} SameBatchesMatch(s: Batcher, s': Batcher)
    requires StreamsMatch(s) && s'.streams == s.streams && s.head <= s'.head && |s'.batches| == |s.batches|
    requires forall i :: s'.head <= i < |s.batches| ==> s'.batches[i] == s.batches[i]
    ensures StreamsMatch(s')
  {
  }

  lemma {:induction false} StepKeepsStreams(s: Batcher, step: Step)
    requires Inv(s) && Defined(s, step) && Promised(s, step) && StreamsMatch(s)
    requires step.SetStreams? ==> s.head == |s.batches|
    ensures StreamsMatch(Next(s, step))
  {
    if step.Finish? {
      var s1 := s.(calls := s.calls - {step.id});
      ForgetCall(s, step.id);
      assert CallOk(s, s.calls[step.id]);
      WorkKeepsStreams(s1, s.calls[step.id]);
    }
  }

  /** The batched streams change only when no batch is in flight. */
  ghost predicate Steady(s: Batcher, steps: seq<Step>)
    requires Admissible(s, steps)
    decreases |steps|
  {
    steps != [] ==> (steps[0].SetStreams? ==> s.head == |s.batches|) && Steady(Next(s, steps[0]), steps[1..])
  }

  lemma {:induction false} SteadyKeepsStreams(s: Batcher, steps: seq<Step>)
    requires Inv(s) && StreamsMatch(s) && Admissible(s, steps) && Steady(s, steps)
    ensures StreamsMatch(Exec(s, steps))
    decreases |steps|
  {
    if steps != [] {
      StepKeepsStreams(s, steps[0]);
      NextKeepsInv(s, steps[0]);
      SteadyKeepsStreams(Next(s, steps[0]), steps[1..]);
    }
  }

  /** In runs whose streams change only between batches, an error flush leaves every batch it meets
      delivered, holding nothing, with all it held sent up. */
  lemma {:induction false} FlushDeliversInSteadyRuns(streams: seq<StreamId>, numPartial: nat, steps: seq<Step>, i: nat, x: Item)
    requires Distinct(streams) && Admissible(Initial(streams, numPartial), steps) && Steady(Initial(streams, numPartial), steps)
    requires var s := Exec(Initial(streams, numPartial), steps); s.head <= i < |s.batches|
    ensures var s := Exec(Initial(streams, numPartial), steps);
            var (b, cbs) := Flush(s.batches[i], s.streams, s.numPartial);
            AllDelivered(b) && Pending(b, x) == 0 && InCallbacks(cbs, x) == Pending(s.batches[i], x)
  {
    InitialInv(streams, numPartial);
    RunKeepsInv(Initial(streams, numPartial), steps);
    SteadyKeepsStreams(Initial(streams, numPartial), steps);
    var s := Exec(Initial(streams, numPartial), steps);
    assert LiveOk(s, s.batches[i]) && SameStreams(s.batches[i], s.streams);
    FlushConserves(s.batches[i], s.streams, x);
  }

  // ---------------------------------------------------------------- leaving the queue

  /** n calls of checkAndRemoveFirstBatch. */
  function Checks(s: Batcher, n: nat): Batcher {
    if n == 0 then s else RemoveFirst(Checks(s, n - 1))
  }

  /** The first k queued batches are finished. */
  ghost predicate FinishedFront(s: Batcher, k: nat) {
    s.head + k <= |s.batches| && forall i :: s.head <= i < s.head + k ==> Finished(s.reported, s.batches[i])
  }

  /** Some batches have left the queue and nothing else has changed. */
  ghost predicate Left(s: Batcher, s': Batcher) {
    && s'.reported == s.reported && s'.callbacks == s.callbacks
    && s.head <= s'.head && |s'.batches| == |s.batches|
    && forall i :: s'.head <= i < |s.batches| ==> s'.batches[i] == s.batches[i]
  }

  /** A check removes the first queued batch exactly when it is finished, and never more than that one. */
  lemma {:induction false} CheckExact(s: Batcher)
    requires Inv(s)
    ensures RemoveFirst(s).head == if FinishedFront(s, 1) then s.head + 1 else s.head
    ensures Left(s, RemoveFirst(s))
  {
    if s.head < |s.batches| {
      assert LiveOk(s, s.batches[s.head]);
      FinishedIsDelivered(s, s.batches[s.head]);
      assert FinishedFront(s, 1) <==> Finished(s.reported, s.batches[s.head]);
    }
  }

  lemma {:induction false} FrontLeft(s: Batcher, s': Batcher, j: nat, k: nat)
    requires Left(s, s') && s'.head == s.head + j && j <= k
    requires FinishedFront(s, k) && !FinishedFront(s, k + 1)
    ensures FinishedFront(s', 1) <==> j < k
  {
    if s.head + j < |s.batches| {
      assert FinishedFront(s', 1) <==> Finished(s.reported, s.batches[s.head + j]);
      if j == k {
        assert !Finished(s.reported, s.batches[s.head + k]);
      }
    }
  }

  /** The queue after n checks has lost its finished front, but at most n batches of it. */
  lemma {:induction false} ChecksExact(s: Batcher, n: nat, k: nat)
    requires Inv(s) && FinishedFront(s, k) && !FinishedFront(s, k + 1)
    ensures Inv(Checks(s, n)) && Left(s, Checks(s, n))
    ensures Checks(s, n).head == s.head + Min(n, k)
  {
    if n > 0 {
      ChecksExact(s, n - 1, k);
      var s1 := Checks(s, n - 1);
      RemoveFirstKeepsInv(s1);
      CheckExact(s1);
      FrontLeft(s, s1, Min(n - 1, k), k);
    }
  }

  /** How many batches at the front of the queue are finished. */
  lemma {:induction false} FrontExists(s: Batcher, n: nat) returns (k: nat)
    requires FinishedFront(s, n)
    ensures FinishedFront(s, k) && !FinishedFront(s, k + 1)
    decreases |s.batches| - s.head - n
  {
    if FinishedFront(s, n + 1) {
      k := FrontExists(s, n + 1);
    } else {
      k := n;
    }
  }

  /** Checks alone empty the queue exactly when all its batches are finished and there is one check
      for each of them. */
  lemma {:induction false} ChecksEmptyTheQueueExactly(s: Batcher, n: nat)
    requires Inv(s)
    ensures Checks(s, n).head == |Checks(s, n).batches| <==> AllFinished(s) && n >= |s.batches| - s.head
  {
    if AllFinished(s) {
      ChecksExact(s, n, |s.batches| - s.head);
    } else {
      var k := FrontExists(s, 0);
      ChecksExact(s, n, k);
    }
  }

  // ---------------------------------------------------------------- calls that do not overlap

  ghost predicate NoneFinished(s: Batcher) {
    forall i :: s.head <= i < |s.batches| ==> !Finished(s.reported, s.batches[i])
  }

  /** No batch is finished while one before it is still queued. */
  ghost predicate OnlyFirstFinished(s: Batcher) {
    forall i :: s.head < i < |s.batches| ==> !Finished(s.reported, s.batches[i])
  }

  /** Each event is worked on and its check made before the next one's, and batches finish in order. */
  ghost predicate Prompt(s: Batcher, steps: seq<Step>)
    requires Admissible(s, steps)
    decreases |steps|
  {
    steps != [] ==>
      && (steps[0].Finish? ==> |steps| > 1 && steps[1].CheckAndRemoveFirst? && OnlyFirstFinished(Next(s, steps[0])))
      && Prompt(Next(s, steps[0]), steps[1..])
  }

  lemma {:induction false} CheckLeavesNoneFinished(s: Batcher)
    requires Inv(s) && OnlyFirstFinished(s)
    ensures NoneFinished(RemoveFirst(s))
  {
    CheckExact(s);
    if s.head < |s.batches| {
      assert FinishedFront(s, 1) <==> Finished(s.reported, s.batches[s.head]);
    }
  }

  lemma {:induction false} QuietStepFinishesNone(s: Batcher, step: Step)
    requires Inv(s) && NoneFinished(s) && Defined(s, step) && Promised(s, step) && !step.Finish?
    ensures NoneFinished(Next(s, step))
  {
    match step
    case SetStreams(_) =>
    case Register(first, size) =>
      var b := NewBatch(first, size, s.numPartial, s.streams);
      assert !ShutterEnded(s.reported, b.last);
    case Begin(_, _) =>
    case CheckAndRemoveFirst => CheckLeavesNoneFinished(s);
  }

  lemma {:induction false} PromptLeavesNoneFinished(s: Batcher, steps: seq<Step>)
    requires Inv(s) && NoneFinished(s) && Admissible(s, steps) && Prompt(s, steps)
    ensures NoneFinished(Exec(s, steps))
    decreases |steps|
  {
    if steps != [] {
      var s1 := Next(s, steps[0]);
      NextKeepsInv(s, steps[0]);
      if steps[0].Finish? {
        var rest := steps[1..];
        var s2 := Next(s1, rest[0]);
        NextKeepsInv(s1, rest[0]);
        CheckLeavesNoneFinished(s1);
        PromptLeavesNoneFinished(s2, rest[1..]);
      } else {
        QuietStepFinishesNone(s, steps[0]);
        PromptLeavesNoneFinished(s1, steps[1..]);
      }
    }
  }

  /** When calls do not overlap and batches finish in order, a finished batch does not stay queued:
      the queue is empty exactly when all batches are finished. */
  lemma {:induction false} PromptRunsEmptyTheQueue(streams: seq<StreamId>, numPartial: nat, steps: seq<Step>)
    requires Distinct(streams) && Admissible(Initial(streams, numPartial), steps)
    requires Prompt(Initial(streams, numPartial), steps)
    ensures var s := Exec(Initial(streams, numPartial), steps);
            NoneFinished(s) && (s.head == |s.batches| <==> AllFinished(s))
  {
    InitialInv(streams, numPartial);
    PromptLeavesNoneFinished(Initial(streams, numPartial), steps);
    RunKeepsInv(Initial(streams, numPartial), steps);
    var s := Exec(Initial(streams, numPartial), steps);
    if s.head < |s.batches| {
      assert !Finished(s.reported, s.batches[s.head]);
    }
  }

  // ---------------------------------------------------------------- a batch that finishes too early

  ghost predicate Leads(s: Batcher, steps: seq<Step>, t: Batcher) {
    Admissible(s, steps) && Exec(s, steps) == t
  }

  lemma {:induction false} LeadsOn(s: Batcher, a: seq<Step>, t: Batcher, b: seq<Step>, u: Batcher)
    requires Leads(s, a, t) && Leads(t, b, u)
    ensures Leads(s, a + b, u)
    decreases |a|
  {
    if a == [] {
      assert a + b == b;
    } else {
      LeadsOn(Next(s, a[0]), a[1..], t, b, u);
      assert (a + b)[0] == a[0] && (a + b)[1..] == a[1..] + b;
    }
  }

  lemma {:induction false} LeadsOne(s: Batcher, step: Step)
    requires Defined(s, step) && Promised(s, step)
    ensures Leads(s, [step], Next(s, step))
  {
    assert [step][1..] == [];
  }

  function Shutter(frame: Frame): Event {
    Message(ShutterMsg(frame, 0))
  }

  /** A shutter reported on one thread: looked up, worked on, and followed by the check. */
  function Report(frame: Frame): seq<Step> {
    [Begin(0, Shutter(frame))] + [Finish(0)] + [CheckAndRemoveFirst]
  }

  /** A one-frame batch without streams or metadata, before and after its shutter. */
  function OneFrame(frame: Frame): Batch {
    NewBatch(frame, 1, 0, [])
  }

  function Sent(frame: Frame): Batch {
    OneFrame(frame).(shutterDelivered := true)
  }

  ghost function Early(batches: seq<Batch>, head: nat, reported: seq<Event>, callbacks: seq<Callback>): Batcher {
    Batcher(batches, head, [], 0, map[], reported, callbacks)
  }

  lemma {:induction false} ShutterSent(frame: Frame)
    ensures QueueShutter(OneFrame(frame), ShutterMsg(frame, 0)) == (Sent(frame), [Notified([ShutterMsg(frame, 0)])])
  {
    assert [] + [ShutterMsg(frame, 0)] == [ShutterMsg(frame, 0)];
  }

  /** Reporting the shutter of the t-th batch sends it. */
  lemma {:induction false} ReportSends(s: Batcher, t: nat, frame: Frame)
    requires s == Early(s.batches, 0, s.reported, s.callbacks)
    requires Sorted(s.batches) && t < |s.batches| && s.batches[t] == OneFrame(frame)
    requires forall k :: 0 <= k < |s.reported| ==> FrameOf(s.reported[k]) != frame
    ensures Leads(s, Report(frame),
                  RemoveFirst(Early(s.batches[t := Sent(frame)], 0, s.reported + [Shutter(frame)],
                                    s.callbacks + [Notified([ShutterMsg(frame, 0)])])))
  {
    FindTargetExact(s, frame);
    assert Contains(s.batches[t], frame);
    var s1 := Next(s, Begin(0, Shutter(frame)));
    LeadsOne(s, Begin(0, Shutter(frame)));
    assert s1.calls == map[0 := Call(Shutter(frame), Some(Target(t, t)))];
    ShutterSent(frame);
    forall i | 0 <= i < |s1.batches| && Contains(s1.batches[i], frame)
      ensures EventInOrder(s1.reported, s1.batches[i], Shutter(frame))
    {
      assert i == t;
    }
    LeadsOne(s1, Finish(0));
    var s2 := Next(s1, Finish(0));
    assert s1.calls - {0} == map[];
    assert s2 == Early(s.batches[t := Sent(frame)], 0, s.reported + [Shutter(frame)],
                       s.callbacks + [Notified([ShutterMsg(frame, 0)])]);
    LeadsOne(s2, CheckAndRemoveFirst);
    LeadsOn(s, [Begin(0, Shutter(frame))], s1, [Finish(0)], s2);
    LeadsOn(s, [Begin(0, Shutter(frame))] + [Finish(0)], s2, [CheckAndRemoveFirst], RemoveFirst(s2));
  }

  /** Batches 7 and 8 in flight; 8 finishes first. */
  function EarlyRun(): seq<Step> {
    [Register(7, 1)] + [Register(8, 1)] + Report(8) + Report(7)
  }

  ghost function EarlyEnd(): Batcher {
    Early([Sent(7).(removed := true), Sent(8)], 1, [Shutter(8), Shutter(7)],
          [Notified([ShutterMsg(8, 0)]), Notified([ShutterMsg(7, 0)])])
  }

  lemma {:induction false} EarlyRegistered()
    ensures Leads(Initial([], 0), [Register(7, 1)] + [Register(8, 1)], EarlyStart())
  {
    var s0 := Initial([], 0);
    LeadsOne(s0, Register(7, 1));
    var s1 := Next(s0, Register(7, 1));
    LeadsOne(s1, Register(8, 1));
    LeadsOn(s0, [Register(7, 1)], s1, [Register(8, 1)], Next(s1, Register(8, 1)));
  }

  ghost function EarlyMiddle(): Batcher {
    Early([OneFrame(7), Sent(8)], 0, [Shutter(8)], [Notified([ShutterMsg(8, 0)])])
  }

  ghost function EarlyStart(): Batcher {
    Early([OneFrame(7), OneFrame(8)], 0, [], [])
  }

  lemma {:induction false} SecondSent()
    ensures var s := EarlyStart();
            EarlyMiddle() == Early(s.batches[1 := Sent(8)], 0, s.reported + [Shutter(8)], s.callbacks + [Notified([ShutterMsg(8, 0)])])
  {
  }

  lemma {:induction false} SecondStays()
    ensures RemoveFirst(EarlyMiddle()) == EarlyMiddle()
  {
    assert !AllDelivered(OneFrame(7));
  }

  lemma {:induction false} SecondReported()
    ensures Leads(EarlyStart(), Report(8), EarlyMiddle())
  {
    SecondSent();
    SecondStays();
    ReportSends(EarlyStart(), 1, 8);
  }

  /** ... when the first batch has been sent too, and before the check that follows. */
  ghost function EarlySent(): Batcher {
    Early([Sent(7), Sent(8)], 0, [Shutter(8), Shutter(7)], [Notified([ShutterMsg(8, 0)]), Notified([ShutterMsg(7, 0)])])
  }

  lemma {:induction false} FirstRemoved()
    ensures RemoveFirst(EarlySent()) == EarlyEnd()
  {
    assert AllDelivered(Sent(7));
    assert EarlySent().batches[0 := Sent(7).(removed := true)] == EarlyEnd().batches;
  }

  lemma {:induction false} FirstSent()
    ensures var s := EarlyMiddle();
            EarlySent() == Early(s.batches[0 := Sent(7)], 0, s.reported + [Shutter(7)], s.callbacks + [Notified([ShutterMsg(7, 0)])])
  {
  }

  lemma {:induction false} FirstReported()
    ensures Leads(EarlyMiddle(), Report(7), EarlyEnd())
  {
    FirstRemoved();
    FirstSent();
    ReportSends(EarlyMiddle(), 0, 7);
  }

  lemma {:induction false} EarlyRunLeads()
    ensures Leads(Initial([], 0), EarlyRun(), EarlyEnd())
  {
    EarlyRegistered();
    SecondReported();
    LeadsOn(Initial([], 0), [Register(7, 1)] + [Register(8, 1)], EarlyStart(), Report(8), EarlyMiddle());
    FirstReported();
    LeadsOn(Initial([], 0), [Register(7, 1)] + [Register(8, 1)] + Report(8), EarlyMiddle(), Report(7), EarlyEnd());
  }

  /** Each shutter is followed by its own check, both batches are finished and all is delivered, yet
      the second batch stays queued: its check came while the first batch was in front of it. */
  lemma {:induction false} FinishedBatchStaysQueued()
    ensures Leads(Initial([], 0), EarlyRun(), EarlyEnd())
    ensures AllFinished(EarlyEnd()) && EarlyEnd().head < |EarlyEnd().batches|
  {
    EarlyRunLeads();
    assert IsShutterFor(EarlyEnd().reported[0], 8);
  }
}
