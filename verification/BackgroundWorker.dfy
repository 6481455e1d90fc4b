/**
 The deadline worker that runs the timeout events (power-libperfmgr/aidl/BackgroundWorker.h and
 BackgroundWorker.cpp).  A thread that schedules work takes three steps: it stores the package under
 a fresh id in a critical section, reads the id counter again outside of it, and pushes the id it
 read onto the pool's queue.  Another thread's package may have come in before the second step.
 */
module BackgroundWorker {
  import VoteTimeouts

  type Id = int
  type Time = int

  /** The session manager's worker carries the timeout events. */
  type Payload = VoteTimeouts.Event

  /** A thread inside schedule: it has stored its own package, or has also read the counter. */
  datatype Scheduler = Stored(own: Id, deadline: Time) | HasRead(own: Id, deadline: Time, id: Id)

  datatype Entry = Entry(id: Id, deadline: Time)

  datatype Delivery = Delivery(id: Id, payload: Payload)

  /** accepted: the payload each id was given to, in order, the first id being 1. */
  datatype Worker = Worker(counter: nat, packages: map<Id, Payload>, schedulers: multiset<Scheduler>,
                           queue: multiset<Entry>, popped: multiset<Id>,
                           accepted: seq<Payload>, delivered: seq<Delivery>)

  datatype Step =
    | Insert(payload: Payload, deadline: Time)
    | Read(scheduler: Scheduler)
    | Push(scheduler: Scheduler)
    | Pop(entry: Entry, now: Time)
    | Process(id: Id)

  const Idle := Worker(0, map[], multiset{}, multiset{}, multiset{}, [], [])

  /** Pop takes an entry that is due and that no other entry precedes. */
  ghost predicate Enabled(w: Worker, step: Step) {
    match step
    case Insert(_, _) => true
    case Read(s) => s in w.schedulers && s.Stored?
    case Push(s) => s in w.schedulers && s.HasRead?
    case Pop(e, now) => e in w.queue && e.deadline <= now && forall x :: x in w.queue ==> e.deadline <= x.deadline
    case Process(id) => id in w.popped
  }

  function InsertPackage(w: Worker, p: Payload, t: Time): Worker {
    var id := w.counter + 1;
    w.(counter := id, packages := w.packages[id := p], schedulers := w.schedulers + multiset{Stored(id, t)},
       accepted := w.accepted + [p])
  }

  function ReadCounter(w: Worker, s: Scheduler): Worker {
    w.(schedulers := w.schedulers - multiset{s} + multiset{HasRead(s.own, s.deadline, w.counter)})
  }

  function PushId(w: Worker, s: Scheduler): Worker
    requires s.HasRead?
  {
    w.(schedulers := w.schedulers - multiset{s}, queue := w.queue + multiset{Entry(s.id, s.deadline)})
  }

  function ProcessPackage(w: Worker, id: Id): Worker {
    if id in w.packages
    then w.(popped := w.popped - multiset{id}, packages := w.packages - {id},
            delivered := w.delivered + [Delivery(id, w.packages[id])])
    else w.(popped := w.popped - multiset{id})
  }

  ghost function Next(w: Worker, step: Step): Worker
    requires Enabled(w, step)
  {
    match step
    case Insert(p, t) => InsertPackage(w, p, t)
    case Read(s) => ReadCounter(w, s)
    case Push(s) => PushId(w, s)
    case Pop(e, _) => w.(queue := w.queue - multiset{e}, popped := w.popped + multiset{e.id})
    case Process(id) => ProcessPackage(w, id)
  }

  // ---------------------------------------------------------------- at most once, and unaltered

  /** How often an id was delivered. */
  function Times(id: Id, ds: seq<Delivery>): nat {
    if ds == [] then 0 else Times(id, ds[..|ds| - 1]) + (if ds[|ds| - 1].id == id then 1 else 0)
  }

  ghost predicate Accounted(w: Worker, id: Id) {
    Times(id, w.delivered) == (if 1 <= id <= w.counter && id !in w.packages then 1 else 0)
  }

  /** Every package ever accepted is held or was delivered once, never both, with its own payload. */
  ghost predicate Sound(w: Worker) {
    && |w.accepted| == w.counter
    && (forall id :: id in w.packages ==> 1 <= id <= w.counter && w.packages[id] == w.accepted[id - 1])
    && (forall i :: 0 <= i < |w.delivered| ==>
          1 <= w.delivered[i].id <= w.counter && w.delivered[i].payload == w.accepted[w.delivered[i].id - 1])
    && (forall id :: Accounted(w, id))
  }

  lemma {:induction false} TimesOneMore(id: Id, ds: seq<Delivery>, d: Delivery)
    ensures Times(id, ds + [d]) == Times(id, ds) + (if d.id == id then 1 else 0)
  {
    assert (ds + [d])[..|ds|] == ds;
  }

  lemma {:induction false} InsertIsSound(w: Worker, p: Payload, t: Time)
    requires Sound(w)
    ensures Sound(InsertPackage(w, p, t))
  {
    var w' := InsertPackage(w, p, t);
    forall id ensures Accounted(w', id) {
      assert Accounted(w, id);
    }
  }

  lemma {:induction false} ProcessIsSound(w: Worker, id: Id)
    requires Sound(w)
    ensures Sound(ProcessPackage(w, id))
  {
    var w' := ProcessPackage(w, id);
    forall x ensures Accounted(w', x) {
      assert Accounted(w, x);
      if id in w.packages {
        TimesOneMore(x, w.delivered, Delivery(id, w.packages[id]));
      }
    }
  }

  lemma {:induction false} SameBooksAreSound(w: Worker, w': Worker)
    requires Sound(w) && w'.counter == w.counter && w'.packages == w.packages
    requires w'.accepted == w.accepted && w'.delivered == w.delivered
    ensures Sound(w')
  {
    forall id ensures Accounted(w', id) {
      assert Accounted(w, id);
    }
  }

  lemma {:induction false} StepIsSound(w: Worker, step: Step)
    requires Sound(w) && Enabled(w, step)
    ensures Sound(Next(w, step))
  {
    match step
    case Insert(p, t) => InsertIsSound(w, p, t);
    case Process(id) => ProcessIsSound(w, id);
    case Read(_) => SameBooksAreSound(w, Next(w, step));
    case Push(_) => SameBooksAreSound(w, Next(w, step));
    case Pop(_, _) => SameBooksAreSound(w, Next(w, step));
  }

  ghost predicate Runs(w: Worker, steps: seq<Step>)
    decreases |steps|
  {
    steps == [] || (Enabled(w, steps[0]) && Runs(Next(w, steps[0]), steps[1..]))
  }

  ghost function After(w: Worker, steps: seq<Step>): Worker
    requires Runs(w, steps)
    decreases |steps|
  {
    if steps == [] then w else After(Next(w, steps[0]), steps[1..])
  }

  /** In every interleaving, duplicated queue entries included, no package is delivered twice. */
  lemma {:induction false} AtMostOnce(w: Worker, steps: seq<Step>)
    requires Sound(w) && Runs(w, steps)
    ensures Sound(After(w, steps))
    decreases |steps|
  {
    if steps != [] {
      StepIsSound(w, steps[0]);
      AtMostOnce(Next(w, steps[0]), steps[1..]);
    }
  }

  // ---------------------------------------------------------------- no loss

  /** The id is queued, in a worker's hands, or was read by a thread that has yet to push it. */
  ghost predicate Carried(w: Worker, id: Id) {
    || id in w.popped
    || (exists e :: e in w.queue && e.id == id)
    || (exists s :: s in w.schedulers && s.HasRead? && s.id == id)
  }

  /** A thread has yet to read the counter. */
  ghost predicate Unread(w: Worker) {
    exists s :: s in w.schedulers && s.Stored?
  }

  ghost predicate Safe(w: Worker, id: Id) {
    Carried(w, id) || (id == w.counter && Unread(w))
  }

  /** Every held package can still reach its callback. */
  ghost predicate Covered(w: Worker) {
    forall id :: id in w.packages ==> Safe(w, id)
  }

  /** The latest package's id has been read, or the package has already run. */
  ghost predicate Caught(w: Worker) {
    w.counter in w.packages ==> Carried(w, w.counter)
  }

  /** A held package that was overtaken before any thread read its id. */
  ghost predicate Stranded(w: Worker, id: Id) {
    id in w.packages && id < w.counter && !Carried(w, id)
  }

  lemma {:induction false} CarriedOn(w: Worker, w': Worker, id: Id)
    requires w.queue <= w'.queue && w.popped <= w'.popped && w.schedulers <= w'.schedulers && Carried(w, id)
    ensures Carried(w', id)
  {
    if id in w.popped {
      assert id in w'.popped;
    } else if e :| e in w.queue && e.id == id {
      assert e in w'.queue;
    } else {
      var s :| s in w.schedulers && s.HasRead? && s.id == id;
      assert s in w'.schedulers;
    }
  }

  lemma {:induction false} InsertCarries(w: Worker, p: Payload, t: Time, id: Id)
    ensures Carried(InsertPackage(w, p, t), id) <==> Carried(w, id)
  {
    var w' := InsertPackage(w, p, t);
    if Carried(w, id) {
      CarriedOn(w, w', id);
    }
    if s :| s in w'.schedulers && s.HasRead? && s.id == id {
      assert s in w.schedulers;
    }
  }

  /** Starting a further schedule loses nothing exactly when the latest id has been read. */
  lemma {:induction false} InsertExact(w: Worker, p: Payload, t: Time)
    requires Sound(w) && Covered(w)
    ensures Covered(InsertPackage(w, p, t)) <==> Caught(w)
    ensures !Caught(w) ==> Stranded(InsertPackage(w, p, t), w.counter)
  {
    var w' := InsertPackage(w, p, t);
    assert Stored(w'.counter, t) in w'.schedulers;
    forall id | id in w'.packages && id != w'.counter
      ensures Safe(w', id) <==> (id == w.counter ==> Carried(w, id))
    {
      assert Safe(w, id);
      InsertCarries(w, p, t, id);
    }
    assert Safe(w', w'.counter);
    if w.counter in w.packages {
      assert w.counter in w'.packages;
      InsertCarries(w, p, t, w.counter);
    }
  }

  /** Reading gives the latest package its carrier and takes none away. */
  lemma {:induction false} ReadCovers(w: Worker, s: Scheduler)
    requires Covered(w) && s in w.schedulers && s.Stored?
    ensures Covered(ReadCounter(w, s))
  {
    var w' := ReadCounter(w, s);
    assert HasRead(s.own, s.deadline, w.counter) in w'.schedulers;
    forall id | id in w'.packages
      ensures Safe(w', id)
    {
      assert Safe(w, id);
      if x :| x in w.schedulers && x.HasRead? && x.id == id {
        assert x != s && x in w'.schedulers;
      }
    }
  }

  lemma {:induction false} PushCovers(w: Worker, s: Scheduler)
    requires Covered(w) && s in w.schedulers && s.HasRead?
    ensures Covered(PushId(w, s))
  {
    var w' := PushId(w, s);
    assert Entry(s.id, s.deadline) in w'.queue;
    forall id | id in w'.packages
      ensures Safe(w', id)
    {
      assert Safe(w, id);
      PushKeepsSafe(w, s, id);
    }
  }

  lemma {:induction false} PushKeepsSafe(w: Worker, s: Scheduler, id: Id)
    requires Safe(w, id) && s in w.schedulers && s.HasRead?
    ensures Safe(PushId(w, s), id)
  {
    var w' := PushId(w, s);
    assert Entry(s.id, s.deadline) in w'.queue;
    if id in w.popped {
    } else if e :| e in w.queue && e.id == id {
      assert e in w'.queue;
    } else if x :| x in w.schedulers && x.HasRead? && x.id == id {
      assert x == s || x in w'.schedulers;
    } else {
      var x :| x in w.schedulers && x.Stored?;
      assert x in w'.schedulers;
    }
  }

  lemma {:induction false} PopCovers(w: Worker, e: Entry)
    requires Covered(w) && e in w.queue
    ensures Covered(w.(queue := w.queue - multiset{e}, popped := w.popped + multiset{e.id}))
  {
    var w' := w.(queue := w.queue - multiset{e}, popped := w.popped + multiset{e.id});
    forall id | id in w'.packages
      ensures Safe(w', id)
    {
      assert Safe(w, id);
      if x :| x in w.queue && x.id == id {
        assert x == e || x in w'.queue;
      }
    }
  }

  lemma {:induction false} ProcessCovers(w: Worker, id: Id)
    requires Covered(w) && id in w.popped
    ensures Covered(ProcessPackage(w, id))
  {
    var w' := ProcessPackage(w, id);
    forall x | x in w'.packages
      ensures Safe(w', x)
    {
      assert Safe(w, x) && x != id;
      if x in w.popped {
        assert x in w'.popped;
      }
    }
  }

  lemma {:induction false} ReadCarriesLatest(w: Worker, s: Scheduler, id: Id)
    requires s in w.schedulers && id != w.counter && !Carried(w, id)
    ensures !Carried(ReadCounter(w, s), id)
  {
    forall x | x in ReadCounter(w, s).schedulers && x.HasRead?
      ensures x.id != id
    {
      assert x in w.schedulers || x.id == w.counter;
    }
  }

  lemma {:induction false} PushCarriesNothingNew(w: Worker, s: Scheduler, id: Id)
    requires s in w.schedulers && s.HasRead? && !Carried(w, id)
    ensures !Carried(PushId(w, s), id)
  {
    forall e | e in PushId(w, s).queue
      ensures e.id != id
    {
      assert e in w.queue || e == Entry(s.id, s.deadline);
    }
    forall x | x in PushId(w, s).schedulers && x.HasRead?
      ensures x.id != id
    {
      assert x in w.schedulers;
    }
  }

  lemma {:induction false} PopCarriesNothingNew(w: Worker, e: Entry, id: Id)
    requires e in w.queue && !Carried(w, id)
    ensures !Carried(w.(queue := w.queue - multiset{e}, popped := w.popped + multiset{e.id}), id)
  {
    forall x | x in w.queue - multiset{e}
      ensures x.id != id
    {
      assert x in w.queue;
    }
  }

  /** One step keeps a lost package lost. */
  lemma {:induction false} StrandedStays(w: Worker, step: Step, id: Id)
    requires Stranded(w, id) && Enabled(w, step)
    ensures Stranded(Next(w, step), id)
  {
    match step
    case Insert(p, t) => InsertCarries(w, p, t, id);
    case Read(s) => ReadCarriesLatest(w, s, id);
    case Push(s) => PushCarriesNothingNew(w, s, id);
    case Pop(e, _) => PopCarriesNothingNew(w, e, id);
    case Process(x) => assert id in ProcessPackage(w, x).popped ==> id in w.popped;
  }

  /** A package overtaken before its id was read never runs, whatever happens next. */
  lemma {:induction false} OvertakenIsLost(w: Worker, steps: seq<Step>, id: Id)
    requires Stranded(w, id) && Runs(w, steps)
    ensures Stranded(After(w, steps), id)
    decreases |steps|
  {
    if steps != [] {
      StrandedStays(w, steps[0], id);
      OvertakenIsLost(Next(w, steps[0]), steps[1..], id);
    }
  }

  /** No package is stored while the id of the one before it is still to be read. */
  ghost predicate Serial(w: Worker, steps: seq<Step>)
    requires Runs(w, steps)
    decreases |steps|
  {
    steps == [] || ((steps[0].Insert? ==> Caught(w)) && Serial(Next(w, steps[0]), steps[1..]))
  }

  lemma {:induction false} StepCovers(w: Worker, step: Step)
    requires Sound(w) && Covered(w) && Enabled(w, step) && (step.Insert? ==> Caught(w))
    ensures Covered(Next(w, step))
  {
    match step
    case Insert(p, t) => InsertExact(w, p, t);
    case Read(s) => ReadCovers(w, s);
    case Push(s) => PushCovers(w, s);
    case Pop(e, _) => PopCovers(w, e);
    case Process(id) => ProcessCovers(w, id);
  }

  /** A run loses no package exactly when each one's id is read before the next is stored. */
  lemma {:induction false} NoLossExact(w: Worker, steps: seq<Step>)
    requires Sound(w) && Covered(w) && Runs(w, steps)
    ensures Covered(After(w, steps)) <==> Serial(w, steps)
    decreases |steps|
  {
    if steps != [] {
      var w' := Next(w, steps[0]);
      if steps[0].Insert? && !Caught(w) {
        InsertExact(w, steps[0].payload, steps[0].deadline);
        OvertakenIsLost(w', steps[1..], w.counter);
        assert !Safe(After(w', steps[1..]), w.counter);
      } else {
        StepIsSound(w, steps[0]);
        StepCovers(w, steps[0]);
        NoLossExact(w', steps[1..]);
      }
    }
  }

  /** Once all entries of a serial run are used up, each package has been delivered exactly once. */
  lemma {:induction false} DrainedDeliversAll(steps: seq<Step>, id: Id)
    requires Runs(Idle, steps) && Serial(Idle, steps)
    requires var w := After(Idle, steps);
             w.schedulers == multiset{} && w.queue == multiset{} && w.popped == multiset{}
    ensures Times(id, After(Idle, steps).delivered) == if 1 <= id <= After(Idle, steps).counter then 1 else 0
  {
    AtMostOnce(Idle, steps);
    NoLossExact(Idle, steps);
    var w := After(Idle, steps);
    assert Accounted(w, id);
    assert id in w.packages ==> Safe(w, id);
  }

  // ---------------------------------------------------------------- whose deadline

  /** The deadlines that these steps asked for, in the order of the ids. */
  function Deadlines(steps: seq<Step>): seq<Time> {
    if steps == [] then []
    else (if steps[0].Insert? then [steps[0].deadline] else []) + Deadlines(steps[1..])
  }

  /** ds are the deadlines of the packages so far: every thread still inside schedule carries its own. */
  ghost predicate Timed(w: Worker, ds: seq<Time>) {
    |ds| == w.counter && forall s :: s in w.schedulers ==> 1 <= s.own <= w.counter && s.deadline == ds[s.own - 1]
  }

  /** Every id that a thread has read is its own, and every queued id has its package's deadline. */
  ghost predicate OwnOnly(w: Worker, ds: seq<Time>)
    requires Timed(w, ds)
  {
    && (forall s :: s in w.schedulers && s.HasRead? ==> s.id == s.own)
    && (forall e :: e in w.queue ==> 1 <= e.id <= w.counter && e.deadline == ds[e.id - 1])
    && (forall id :: id in w.popped ==> 1 <= id <= w.counter)
  }

  /** At most one thread has yet to read, and it is the one that stored the latest package. */
  ghost predicate OneUnread(w: Worker) {
    forall s :: s in w.schedulers && s.Stored? ==>
      s.own == w.counter && w.schedulers[s] == 1 && w.counter in w.packages && !Carried(w, w.counter)
  }

  ghost predicate Punctual(w: Worker, ds: seq<Time>) {
    Timed(w, ds) && OwnOnly(w, ds) && OneUnread(w)
  }

  /** The deadlines after one more step. */
  function WithStep(ds: seq<Time>, step: Step): seq<Time> {
    if step.Insert? then ds + [step.deadline] else ds
  }

  lemma {:induction false} InsertIsPunctual(w: Worker, ds: seq<Time>, p: Payload, t: Time)
    requires Punctual(w, ds) && Caught(w)
    ensures Punctual(InsertPackage(w, p, t), ds + [t])
  {
    var w' := InsertPackage(w, p, t);
    forall s | s in w'.schedulers && s.Stored?
      ensures s == Stored(w'.counter, t)
    {
      assert s in w.schedulers ==> Carried(w, w.counter);
    }
    assert Stored(w'.counter, t) !in w.schedulers;
    assert forall s :: s in w.schedulers && s.HasRead? ==> s.id <= w.counter;
    InsertCarries(w, p, t, w'.counter);
  }

  lemma {:induction false} ReadIsPunctual(w: Worker, ds: seq<Time>, s: Scheduler)
    requires Punctual(w, ds) && s in w.schedulers && s.Stored?
    ensures s.own == w.counter && Punctual(ReadCounter(w, s), ds)
  {
    var w' := ReadCounter(w, s);
    forall x | x in w'.schedulers
      ensures x in w.schedulers || x == HasRead(s.own, s.deadline, w.counter)
    {
    }
    assert forall x :: x in w.schedulers && x.Stored? ==> x == s;
    assert w'.schedulers[s] == 0;
  }

  lemma {:induction false} PushIsPunctual(w: Worker, ds: seq<Time>, s: Scheduler)
    requires Punctual(w, ds) && s in w.schedulers && s.HasRead?
    ensures Punctual(PushId(w, s), ds)
  {
    var w' := PushId(w, s);
    forall x | x in w'.schedulers ensures x in w.schedulers {
    }
    forall e | e in w'.queue ensures e in w.queue || e == Entry(s.id, s.deadline) {
    }
    if !Carried(w, w.counter) {
      PushCarriesNothingNew(w, s, w.counter);
    }
  }

  lemma {:induction false} PopIsPunctual(w: Worker, ds: seq<Time>, e: Entry)
    requires Punctual(w, ds) && e in w.queue
    ensures Punctual(w.(queue := w.queue - multiset{e}, popped := w.popped + multiset{e.id}), ds)
  {
    var w' := w.(queue := w.queue - multiset{e}, popped := w.popped + multiset{e.id});
    forall x | x in w'.queue ensures x in w.queue {
    }
    if !Carried(w, w.counter) {
      PopCarriesNothingNew(w, e, w.counter);
    }
  }

  lemma {:induction false} ProcessIsPunctual(w: Worker, ds: seq<Time>, id: Id)
    requires Punctual(w, ds) && id in w.popped
    ensures Punctual(ProcessPackage(w, id), ds)
  {
    var w' := ProcessPackage(w, id);
    forall x | x in w'.popped ensures x in w.popped {
    }
    if Carried(w', w.counter) {
      assert Carried(w, w.counter);
    }
  }

  lemma {:induction false} StepIsPunctual(w: Worker, ds: seq<Time>, step: Step)
    requires Punctual(w, ds) && Enabled(w, step) && (step.Insert? ==> Caught(w))
    ensures Punctual(Next(w, step), WithStep(ds, step))
  {
    match step
    case Insert(p, t) => InsertIsPunctual(w, ds, p, t);
    case Read(s) => ReadIsPunctual(w, ds, s);
    case Push(s) => PushIsPunctual(w, ds, s);
    case Pop(e, _) => PopIsPunctual(w, ds, e);
    case Process(id) => ProcessIsPunctual(w, ds, id);
  }

  lemma {:induction false} SerialIsPunctual(w: Worker, ds: seq<Time>, steps: seq<Step>)
    requires Punctual(w, ds) && Runs(w, steps) && Serial(w, steps)
    ensures Punctual(After(w, steps), ds + Deadlines(steps))
    decreases |steps|
  {
    if steps == [] {
      assert ds + [] == ds;
    } else {
      StepIsPunctual(w, ds, steps[0]);
      SerialIsPunctual(Next(w, steps[0]), WithStep(ds, steps[0]), steps[1..]);
      DeadlinesStep(ds, steps);
    }
  }

  lemma {:induction false} DeadlinesStep(ds: seq<Time>, steps: seq<Step>)
    requires steps != []
    ensures WithStep(ds, steps[0]) + Deadlines(steps[1..]) == ds + Deadlines(steps)
  {
  }

  lemma {:induction false} IdleIsPunctual()
    ensures Punctual(Idle, [])
  {
  }

  /** In a serial run every package is queued under the deadline it was scheduled with. */
  lemma {:induction false} SerialKeepsDeadlines(steps: seq<Step>, e: Entry)
    requires Runs(Idle, steps) && Serial(Idle, steps) && e in After(Idle, steps).queue
    ensures 1 <= e.id <= |Deadlines(steps)| && e.deadline == Deadlines(steps)[e.id - 1]
  {
    IdleIsPunctual();
    SerialIsPunctual(Idle, [], steps);
    assert [] + Deadlines(steps) == Deadlines(steps);
  }

  // ---------------------------------------------------------------- another caller's deadline

  lemma {:induction false} InsertsCounted(w: Worker, steps: seq<Step>)
    requires Runs(w, steps)
    ensures After(w, steps).counter == w.counter + |Deadlines(steps)|
    decreases |steps|
  {
    if steps != [] {
      InsertsCounted(Next(w, steps[0]), steps[1..]);
    }
  }

  /** A thread that stored its package, saw the steps `between` and then reads the counter will queue
      the package as many places after its own as packages were stored in between, under its own
      deadline: that is its own package exactly when none was. */
  lemma {:induction false} QueuedUnderExactly(w: Worker, p: Payload, t: Time, between: seq<Step>, w': Worker)
    requires Runs(InsertPackage(w, p, t), between) && w' == After(InsertPackage(w, p, t), between)
    requires Stored(w.counter + 1, t) in w'.schedulers
    ensures var own := w.counter + 1;
            var read := HasRead(own, t, own + |Deadlines(between)|);
            && read in ReadCounter(w', Stored(own, t)).schedulers
            && Entry(read.id, t) in PushId(ReadCounter(w', Stored(own, t)), read).queue
            && (read.id == own <==> forall i :: 0 <= i < |between| ==> !between[i].Insert?)
  {
    InsertsCounted(InsertPackage(w, p, t), between);
    assert w'.counter == w.counter + 1 + |Deadlines(between)|;
    NoInserts(between);
    ReadThenPush(w', Stored(w.counter + 1, t));
  }

  lemma {:induction false} ReadThenPush(w: Worker, s: Scheduler)
    requires s in w.schedulers
    ensures var read := HasRead(s.own, s.deadline, w.counter);
            && read in ReadCounter(w, s).schedulers
            && Entry(w.counter, s.deadline) in PushId(ReadCounter(w, s), read).queue
  {
  }

  lemma {:induction false} NoInserts(steps: seq<Step>)
    ensures |Deadlines(steps)| == 0 <==> forall i :: 0 <= i < |steps| ==> !steps[i].Insert?
  {
    if steps != [] {
      NoInserts(steps[1..]);
      assert forall i :: 0 < i < |steps| ==> steps[i] == steps[1..][i - 1];
    }
  }

  /** A thread that has stored its package and has been overtaken. */
  ghost predicate Overtaken(w: Worker) {
    exists s :: s in w.schedulers && s.Stored? && s.own < w.counter
  }

  /** Every thread reads its own package's id, and none is left that no longer can. */
  ghost predicate ReadsOwn(w: Worker, steps: seq<Step>)
    requires Runs(w, steps)
    decreases |steps|
  {
    if steps == [] then !Overtaken(w)
    else (steps[0].Read? ==> steps[0].scheduler.own == w.counter) && ReadsOwn(Next(w, steps[0]), steps[1..])
  }

  lemma {:induction false} OvertakenStays(w: Worker, steps: seq<Step>, s: Scheduler)
    requires Runs(w, steps) && s in w.schedulers && s.Stored? && s.own < w.counter
    ensures !ReadsOwn(w, steps)
    decreases |steps|
  {
    if steps != [] && steps[0] != Read(s) {
      var w' := Next(w, steps[0]);
      assert s in w'.schedulers;
      OvertakenStays(w', steps[1..], s);
    }
  }

  /** No package is queued under another caller's deadline exactly in the runs where each id is read
      before the next package is stored, which are those that lose no package. */
  lemma {:induction false} OwnDeadlinesExactly(w: Worker, ds: seq<Time>, steps: seq<Step>)
    requires Sound(w) && Covered(w) && Punctual(w, ds) && Runs(w, steps)
    ensures ReadsOwn(w, steps) <==> Serial(w, steps)
    decreases |steps|
  {
    if steps == [] {
      assert !Overtaken(w);
    } else {
      var w' := Next(w, steps[0]);
      if steps[0].Insert? && !Caught(w) {
        assert Safe(w, w.counter);
        var s :| s in w.schedulers && s.Stored?;
        assert s in w'.schedulers;
        OvertakenStays(w', steps[1..], s);
      } else {
        StepIsSound(w, steps[0]);
        StepCovers(w, steps[0]);
        StepIsPunctual(w, ds, steps[0]);
        OwnDeadlinesExactly(w', WithStep(ds, steps[0]), steps[1..]);
      }
    }
  }

  // ---------------------------------------------------------------- two runs of two threads

  lemma {:induction false} BothStored(p: Payload, q: Payload)
    ensures var w := Next(Next(Idle, Insert(p, 5)), Insert(q, 5));
            Stranded(w, 1) && w.counter == 2 && w.schedulers == multiset{Stored(1, 5), Stored(2, 5)}
  {
  }

  /** The two reads of a worker whose counter is 2. */
  lemma {:induction false} BothRead(w: Worker)
    requires Stranded(w, 1) && w.counter == 2 && w.schedulers == multiset{Stored(1, 5), Stored(2, 5)}
    ensures Enabled(w, Read(Stored(1, 5))) && Enabled(Next(w, Read(Stored(1, 5))), Read(Stored(2, 5)))
    ensures var w' := Next(Next(w, Read(Stored(1, 5))), Read(Stored(2, 5)));
            Stranded(w', 1) && w'.schedulers == multiset{HasRead(1, 5, 2), HasRead(2, 5, 2)}
  {
    var c, d := Read(Stored(1, 5)), Read(Stored(2, 5));
    StrandedStays(w, c, 1);
    assert Next(w, c).schedulers == multiset{HasRead(1, 5, 2), Stored(2, 5)};
    StrandedStays(Next(w, c), d, 1);
    assert Next(Next(w, c), d).schedulers == multiset{HasRead(1, 5, 2), HasRead(2, 5, 2)};
  }

  /** Both threads store before either reads: both read 2, and package 1 is lost. */
  lemma {:induction false} TwoSchedulesLoseOne(p: Payload, q: Payload)
    ensures var steps := [Insert(p, 5), Insert(q, 5), Read(Stored(1, 5)), Read(Stored(2, 5))];
            && Runs(Idle, steps) && Stranded(After(Idle, steps), 1)
            && After(Idle, steps).schedulers == multiset{HasRead(1, 5, 2), HasRead(2, 5, 2)}
  {
    BothStored(p, q);
    BothRead(Next(Next(Idle, Insert(p, 5)), Insert(q, 5)));
    FourSteps(Idle, Insert(p, 5), Insert(q, 5), Read(Stored(1, 5)), Read(Stored(2, 5)));
  }

  /** Each thread reads before the next stores: nothing is lost although the schedules overlap. */
  lemma {:induction false} OverlapCanBeSafe(p: Payload, q: Payload)
    ensures var steps := [Insert(p, 5), Read(Stored(1, 5)), Insert(q, 5), Read(Stored(2, 5))];
            && Runs(Idle, steps) && Covered(After(Idle, steps))
            && After(Idle, steps).schedulers == multiset{HasRead(1, 5, 1), HasRead(2, 5, 2)}
  {
    var a, b, c, d := Insert(p, 5), Read(Stored(1, 5)), Insert(q, 5), Read(Stored(2, 5));
    var w2 := Next(Next(Idle, a), b);
    assert w2.schedulers == multiset{HasRead(1, 5, 1)};
    var w3 := Next(w2, c);
    assert w3.schedulers == multiset{HasRead(1, 5, 1), Stored(2, 5)};
    var w4 := Next(w3, d);
    assert w4.schedulers == multiset{HasRead(1, 5, 1), HasRead(2, 5, 2)};
    FourSteps(Idle, a, b, c, d);
    assert Carried(w4, 1) by {
      assert HasRead(1, 5, 1) in w4.schedulers;
    }
    assert Carried(w4, 2) by {
      assert HasRead(2, 5, 2) in w4.schedulers;
    }
  }

  lemma {:induction false} FirstStep(w: Worker, step: Step, rest: seq<Step>)
    requires Enabled(w, step) && Runs(Next(w, step), rest)
    ensures Runs(w, [step] + rest) && After(w, [step] + rest) == After(Next(w, step), rest)
  {
    assert ([step] + rest)[1..] == rest;
  }

  lemma {:induction false} FourSteps(w: Worker, a: Step, b: Step, c: Step, d: Step)
    requires Enabled(w, a)
    requires Enabled(Next(w, a), b)
    requires Enabled(Next(Next(w, a), b), c)
    requires Enabled(Next(Next(Next(w, a), b), c), d)
    ensures Runs(w, [a, b, c, d]) && After(w, [a, b, c, d]) == Next(Next(Next(Next(w, a), b), c), d)
  {
    var w1 := Next(w, a);
    var w2 := Next(w1, b);
    var w3 := Next(w2, c);
    FirstStep(w3, d, []);
    FirstStep(w2, c, [d] + []);
    FirstStep(w1, b, [c] + ([d] + []));
    FirstStep(w, a, [b] + ([c] + ([d] + [])));
    assert [a] + ([b] + ([c] + ([d] + []))) == [a, b, c, d];
  }

  // ---------------------------------------------------------------- the worker's methods

  /** TemplatePriorityQueueWorker: the critical sections on its own lock. */
  class QueueWorker {
    var counter: nat
    var packages: map<Id, Payload>

    constructor ()
      ensures counter == Idle.counter && packages == Idle.packages
    {
      counter := 0;
      packages := map[];
    }

    method Store(payload: Payload)
      modifies this
      ensures forall w: Worker, t :: w.counter == old(counter) && w.packages == old(packages) ==>
                var w' := InsertPackage(w, payload, t);
                w'.counter == counter && w'.packages == packages
    {
      counter := counter + 1;
      packages := packages[counter := payload];
    }

    /** The delivery to make, or none when its package is gone. */
    method Take(id: Id) returns (deliver: seq<Delivery>)
      modifies this
      ensures forall w: Worker :: w.counter == old(counter) && w.packages == old(packages) ==>
                var w' := ProcessPackage(w, id);
                w'.counter == counter && w'.packages == packages && w'.delivered == w.delivered + deliver
    {
      deliver := [];
      if id in packages {
        deliver := [Delivery(id, packages[id])];
        packages := packages - {id};
      }
    }
  }
}
