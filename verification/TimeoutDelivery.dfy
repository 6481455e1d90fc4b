/**
 Vote timeouts over the deadline worker that carries them: the tables of votes of
 power-libperfmgr/aidl/PowerSessionManager.cpp together with the three steps in which the worker of
 BackgroundWorker.h takes an event.  An event is decided on under the manager's lock, stored with the
 worker, read and queued by its thread, taken by the worker, and handled under the manager's lock.
 */
module TimeoutDelivery {
  import opened Votes
  import opened VoteTimeouts
  import W = BackgroundWorker

  /** decided: to be scheduled by a thread that has not stored them yet; inHand: taken from the
      worker's map, handleEvent's lock not yet taken. */
  datatype Service = Service(sessions: map<SessionId, Table>, decided: multiset<Event>, worker: W.Worker, inHand: multiset<Event>)

  /** Change: a step of the session manager that is not about an event. */
  datatype Move =
    | Change(step: Step)
    | Store(event: Event)
    | Work(step': W.Step)
    | Take(id: W.Id)
    | HandleTaken(event: Event, now: Time)

  /** The manager's state, with every package that the worker holds as a queued event. */
  ghost function View(s: Service): Manager {
    Manager(s.sessions, s.decided, multiset(Held(s.worker.packages)), s.inHand)
  }

  function Held(packages: map<W.Id, Event>): set<Event> {
    set p | p in packages :: packages[p]
  }

  /** The manager with these tables and no events. */
  function Bare(sessions: map<SessionId, Table>): Manager {
    Manager(sessions, multiset{}, multiset{}, multiset{})
  }

  predicate ChangesVotes(step: Step) {
    step.AddSession? || step.RemoveSession? || step.VoteSetCpu? || step.VoteSetGpu? || step.DisableBoosts? || step.UpdateDuration?
  }

  ghost predicate Possible(s: Service, move: Move) {
    match move
    case Change(step) => ChangesVotes(step)
    case Store(e) => e in s.decided
    case Work(step) => (step.Read? || step.Push? || step.Pop?) && W.Enabled(s.worker, step)
    case Take(id) => id in s.worker.popped
    case HandleTaken(e, _) => e in s.inHand
  }

  ghost function Moved(s: Service, move: Move): Service
    requires Possible(s, move)
  {
    match move
    case Change(step) =>
      var m := Next(View(s), step);
      s.(sessions := m.sessions, decided := m.aboutToQueue)
    case Store(e) => s.(decided := s.decided - multiset{e}, worker := W.InsertPackage(s.worker, e, e.deadline))
    case Work(step) => s.(worker := W.Next(s.worker, step))
    case Take(id) =>
      s.(worker := W.ProcessPackage(s.worker, id),
         inHand := if id in s.worker.packages then s.inHand + multiset{s.worker.packages[id]} else s.inHand)
    case HandleTaken(e, now) =>
      var m := HandleEvent(Bare(s.sessions), e, now);
      s.(sessions := m.sessions, decided := s.decided + m.queue, inHand := s.inHand - multiset{e})
  }

  ghost predicate Runs(s: Service, moves: seq<Move>)
    decreases |moves|
  {
    moves == [] || (Possible(s, moves[0]) && Runs(Moved(s, moves[0]), moves[1..]))
  }

  ghost function After(s: Service, moves: seq<Move>): Service
    requires Runs(s, moves)
    decreases |moves|
  {
    if moves == [] then s else After(Moved(s, moves[0]), moves[1..])
  }

  const Start := Service(map[], multiset{}, W.Idle, multiset{})

  // ---------------------------------------------------------------- a package for every active vote

  /** Whether votes are watched depends on which events are there, not on how many or where. */
  lemma {:induction false} SameWatch(m: Manager, m': Manager)
    requires m'.sessions == m.sessions && forall e :: e in m.Pending() ==> e in m'.Pending()
    ensures AllWatched(m) ==> AllWatched(m')
  {
    forall sid, id | Watched(m, sid, id)
      ensures Watched(m', sid, id)
    {
      var e :| e in m.Pending() && e.sessionId == sid && e.voteId == id;
      assert e in m'.Pending();
    }
  }

  lemma {:induction false} ChangeKeepsWatch(s: Service, step: Step)
    requires ChangesVotes(step) && AllWatched(View(s))
    ensures AllWatched(View(Moved(s, Change(step))))
  {
    StepKeeps(View(s), step);
    assert View(Moved(s, Change(step))) == Next(View(s), step);
  }

  lemma {:induction false} StoreKeepsWatch(s: Service, e: Event)
    requires W.Sound(s.worker) && e in s.decided && AllWatched(View(s))
    ensures AllWatched(View(Moved(s, Store(e))))
  {
    var w, w' := s.worker, Moved(s, Store(e)).worker;
    assert w'.packages[w'.counter] == e && e in Held(w'.packages);
    forall x | x in Held(w.packages)
      ensures x in Held(w'.packages)
    {
      var id :| id in w.packages && w.packages[id] == x;
      assert w'.packages[id] == x;
    }
    SameWatch(View(s), View(Moved(s, Store(e))));
  }

  lemma {:induction false} TakeKeepsWatch(s: Service, id: W.Id)
    requires id in s.worker.popped && AllWatched(View(s))
    ensures AllWatched(View(Moved(s, Take(id))))
  {
    var w, s' := s.worker, Moved(s, Take(id));
    forall x | x in Held(w.packages)
      ensures x in Held(s'.worker.packages) || x in s'.inHand
    {
      var i :| i in w.packages && w.packages[i] == x;
      assert i != id ==> s'.worker.packages[i] == x;
    }
    SameWatch(View(s), View(s'));
  }

  /** What handleEvent does depends on the tables alone. */
  lemma {:induction false} HandleSplits(m: Manager, e: Event, now: Time)
    ensures var bare := HandleEvent(Bare(m.sessions), e, now);
            HandleEvent(m, e, now) == m.(sessions := bare.sessions, queue := m.queue + bare.queue)
  {
    assert m.queue + multiset{} == m.queue;
  }

  lemma {:induction false} HandleKeepsWatch(s: Service, e: Event, now: Time)
    requires e in s.inHand && AllWatched(View(s))
    ensures AllWatched(View(Moved(s, HandleTaken(e, now))))
  {
    var m := View(s);
    var less := m.(popped := m.popped - multiset{e});
    assert m.Pending() == less.Pending() + multiset{e};
    HandleKeeps(m, less, e, now);
    HandleSplits(less, e, now);
    var bare := HandleEvent(Bare(s.sessions), e, now);
    SameWatch(less.(sessions := bare.sessions, queue := less.queue + bare.queue), View(Moved(s, HandleTaken(e, now))));
  }

  lemma {:induction false} WorkKeepsPackages(s: Service, step: W.Step)
    requires Possible(s, Work(step))
    ensures Moved(s, Work(step)).worker.packages == s.worker.packages
  {
  }

  lemma {:induction false} MoveKeepsWatch(s: Service, move: Move)
    requires W.Sound(s.worker) && Possible(s, move) && AllWatched(View(s))
    ensures AllWatched(View(Moved(s, move)))
  {
    match move
    case Change(step) => ChangeKeepsWatch(s, step);
    case Store(e) => StoreKeepsWatch(s, e);
    case Work(step) =>
      WorkKeepsPackages(s, step);
      SameWatch(View(s), View(Moved(s, move)));
    case Take(id) => TakeKeepsWatch(s, id);
    case HandleTaken(e, now) => HandleKeepsWatch(s, e, now);
  }

  /** The worker's own step of a move, if it has one. */
  ghost function WorkerStep(s: Service, move: Move): seq<W.Step> {
    match move
    case Store(e) => [W.Insert(e, e.deadline)]
    case Work(step) => [step]
    case Take(id) => [W.Process(id)]
    case Change(_) => []
    case HandleTaken(_, _) => []
  }

  lemma {:induction false} MoveIsWorkerStep(s: Service, move: Move)
    requires Possible(s, move)
    ensures var steps := WorkerStep(s, move);
            if steps == [] then Moved(s, move).worker == s.worker
            else W.Enabled(s.worker, steps[0]) && Moved(s, move).worker == W.Next(s.worker, steps[0])
  {
  }

  // ---------------------------------------------------------------- serial runs lose no timeout

  /** Each event is stored only after the id of the one before it has been read. */
  ghost predicate Serial(s: Service, moves: seq<Move>)
    requires Runs(s, moves)
    decreases |moves|
  {
    moves == [] || ((moves[0].Store? ==> W.Caught(s.worker)) && Serial(Moved(s, moves[0]), moves[1..]))
  }

  /** An event of this vote will still be handled: it is decided on, in hand, or in a package whose id
      is queued, popped, or about to be read. */
  ghost predicate Live(s: Service, sid: SessionId, id: VoteId) {
    || (exists e :: (e in s.decided || e in s.inHand) && e.sessionId == sid && e.voteId == id)
    || (exists p :: p in s.worker.packages && W.Safe(s.worker, p)
                    && s.worker.packages[p].sessionId == sid && s.worker.packages[p].voteId == id)
  }

  lemma {:induction false} WatchedIsLive(s: Service, sid: SessionId, id: VoteId)
    requires W.Covered(s.worker) && Watched(View(s), sid, id)
    ensures Live(s, sid, id)
  {
    var e :| e in View(s).Pending() && e.sessionId == sid && e.voteId == id;
    if e !in s.decided && e !in s.inHand {
      assert e in Held(s.worker.packages);
      var p :| p in s.worker.packages && s.worker.packages[p] == e;
      assert W.Safe(s.worker, p);
    }
  }

  lemma {:induction false} SerialKeepsCovered(s: Service, moves: seq<Move>)
    requires W.Sound(s.worker) && W.Covered(s.worker) && AllWatched(View(s)) && Runs(s, moves) && Serial(s, moves)
    ensures W.Covered(After(s, moves).worker) && AllWatched(View(After(s, moves)))
    decreases |moves|
  {
    if moves != [] {
      var steps := WorkerStep(s, moves[0]);
      MoveIsWorkerStep(s, moves[0]);
      MoveKeepsWatch(s, moves[0]);
      if steps != [] {
        W.StepIsSound(s.worker, steps[0]);
        W.StepCovers(s.worker, steps[0]);
      }
      SerialKeepsCovered(Moved(s, moves[0]), moves[1..]);
    }
  }

  /** Over every run with serial schedules, every active vote has an event that will be handled. */
  lemma {:induction false} SerialRunsForgetNoVote(moves: seq<Move>, sid: SessionId, id: VoteId)
    requires Runs(Start, moves) && Serial(Start, moves)
    requires View(After(Start, moves)).IsActive(sid, id)
    ensures Live(After(Start, moves), sid, id)
  {
    SerialKeepsCovered(Start, moves);
    WatchedIsLive(After(Start, moves), sid, id);
  }

  // ---------------------------------------------------------------- a lost timeout

  /** The vote is active, and its events are all in packages that no thread will ever queue. */
  ghost predicate Lost(s: Service, sid: SessionId, id: VoteId) {
    && View(s).IsActive(sid, id)
    && (forall e :: e in s.decided || e in s.inHand ==> !(e.sessionId == sid && e.voteId == id))
    && (forall p :: p in s.worker.packages && s.worker.packages[p].sessionId == sid && s.worker.packages[p].voteId == id ==>
          W.Stranded(s.worker, p))
  }

  /** The move removes the session, disables the vote, or sets it to end before it would have: setting
      it to end at the same time or later schedules no event. */
  ghost predicate Rescues(s: Service, move: Move, sid: SessionId, id: VoteId)
    requires sid in s.sessions
  {
    move.Change? &&
    match move.step
    case RemoveSession(s') => s' == sid
    case DisableBoosts(s') => s' == sid && id in BOOST_VOTES
    case VoteSetCpu(s', i, _, start, d) => s' == sid && i == id && start + d < s.sessions[sid].Timeout(id)
    case VoteSetGpu(s', i, _, start, d) => s' == sid && i == id && start + d < s.sessions[sid].Timeout(id)
    case _ => false
  }

  lemma {:induction false} SwitchOffOthers(v: Table, ids: seq<VoteId>, id: VoteId)
    requires id !in ids
    ensures SwitchOff(v, ids).IsActive(id) == v.IsActive(id)
  {
    if ids != [] {
      SwitchOffOthers(v, ids[..|ids| - 1], id);
      SetUseOff(SwitchOff(v, ids[..|ids| - 1]), ids[|ids| - 1]);
    }
  }

  /** Setting the vote to a later end, or another vote, leaves the vote active and decides on no event of it. */
  lemma {:induction false} SetVoteLosesOn(m: Manager, sid: SessionId, id: VoteId, i: VoteId, after: Table, r: VoteRange)
    requires sid in m.sessions && m.IsActive(sid, id) && r.active && VoteSetTo(m.sessions[sid], after, i, r)
    requires i == id ==> m.Timeout(sid, id) <= r.Timeout()
    ensures var m' := SetVote(m, sid, i, after, r.Timeout());
            && m'.IsActive(sid, id)
            && forall e :: e in m'.aboutToQueue && e.sessionId == sid && e.voteId == id ==> e in m.aboutToQueue
  {
    assert i != id ==> after.Has(id) == m.sessions[sid].Has(id);
  }

  lemma {:induction false} ChangeLosesOn(s: Service, step: Step, sid: SessionId, id: VoteId)
    requires Lost(s, sid, id) && ChangesVotes(step) && !Rescues(s, Change(step), sid, id)
    ensures Lost(Moved(s, Change(step)), sid, id)
  {
    match step
    case VoteSetCpu(s', i, u, start, d) =>
      if s' == sid {
        var r := VoteRange(true, start, d);
        AddCpuSets(s.sessions[sid], i, CpuVote(r, u));
        SetVoteLosesOn(View(s), sid, id, i, s.sessions[sid].AddCpu(i, CpuVote(r, u)), r);
      }
    case VoteSetGpu(s', i, c, start, d) =>
      if s' == sid {
        var r := VoteRange(true, start, d);
        AddGpuSets(s.sessions[sid], i, GpuVote(r, c));
        SetVoteLosesOn(View(s), sid, id, i, s.sessions[sid].AddGpu(i, GpuVote(r, c)), r);
      }
    case DisableBoosts(s') =>
      if s' == sid { SwitchOffOthers(s.sessions[sid], BOOST_VOTES, id); }
    case UpdateDuration(s', i, d) =>
      if s' == sid { UpdateShape(s.sessions[sid], i, d); }
    case _ =>
  }

  lemma {:induction false} HandleLosesOn(s: Service, e: Event, now: Time, sid: SessionId, id: VoteId)
    requires Lost(s, sid, id) && e in s.inHand
    ensures Lost(Moved(s, HandleTaken(e, now)), sid, id)
  {
    if e.sessionId in s.sessions {
      SetUseOff(s.sessions[e.sessionId], e.voteId);
    }
  }

  lemma {:induction false} WorkerLosesOn(s: Service, move: Move, sid: SessionId, id: VoteId)
    requires Lost(s, sid, id) && Possible(s, move) && (move.Store? || move.Work? || move.Take?)
    ensures Lost(Moved(s, move), sid, id)
  {
    var steps := WorkerStep(s, move);
    MoveIsWorkerStep(s, move);
    var s' := Moved(s, move);
    forall p | p in s'.worker.packages && s'.worker.packages[p].sessionId == sid && s'.worker.packages[p].voteId == id
      ensures W.Stranded(s'.worker, p)
    {
      assert p in s.worker.packages && s'.worker.packages[p] == s.worker.packages[p];
      W.StrandedStays(s.worker, steps[0], p);
    }
  }

  lemma {:induction false} MoveLosesOn(s: Service, move: Move, sid: SessionId, id: VoteId)
    requires Lost(s, sid, id) && Possible(s, move) && !Rescues(s, move, sid, id)
    ensures Lost(Moved(s, move), sid, id)
  {
    match move
    case Change(step) => ChangeLosesOn(s, step, sid, id);
    case HandleTaken(e, now) => HandleLosesOn(s, e, now, sid, id);
    case Store(_) => WorkerLosesOn(s, move, sid, id);
    case Work(_) => WorkerLosesOn(s, move, sid, id);
    case Take(_) => WorkerLosesOn(s, move, sid, id);
  }

  /** No move of the run rescues the vote. */
  ghost predicate Unrescued(s: Service, moves: seq<Move>, sid: SessionId, id: VoteId)
    requires Runs(s, moves)
    decreases |moves|
  {
    moves == [] || ((sid in s.sessions ==> !Rescues(s, moves[0], sid, id)) && Unrescued(Moved(s, moves[0]), moves[1..], sid, id))
  }

  /** A vote whose timeout was lost in schedule stays active, however late it gets, in every run that
      does not remove its session, disable it or set it to an earlier end. */
  lemma {:induction false} LostTimeoutLeavesVoteOn(s: Service, moves: seq<Move>, sid: SessionId, id: VoteId)
    requires Lost(s, sid, id) && Runs(s, moves) && Unrescued(s, moves, sid, id)
    ensures Lost(After(s, moves), sid, id) && View(After(s, moves)).IsActive(sid, id)
    decreases |moves|
  {
    if moves != [] {
      MoveLosesOn(s, moves[0], sid, id);
      LostTimeoutLeavesVoteOn(Moved(s, moves[0]), moves[1..], sid, id);
    }
  }

  /** The vote's only event is in the latest package. */
  ghost predicate OnlyInLatest(s: Service, sid: SessionId, id: VoteId) {
    && (forall e :: e in s.decided || e in s.inHand ==> !(e.sessionId == sid && e.voteId == id))
    && (forall p :: p in s.worker.packages && s.worker.packages[p].sessionId == sid && s.worker.packages[p].voteId == id ==>
          p == s.worker.counter)
  }

  /** Such a vote's timeout is lost by the next event that is stored exactly when no thread has read
      the latest id yet. */
  lemma {:induction false} OvertakingLosesExactly(s: Service, e: Event, sid: SessionId, id: VoteId)
    requires W.Sound(s.worker) && W.Covered(s.worker) && e in s.decided
    requires View(s).IsActive(sid, id) && OnlyInLatest(s, sid, id)
    requires s.worker.counter in s.worker.packages
    requires var own := s.worker.packages[s.worker.counter]; own.sessionId == sid && own.voteId == id
    ensures Lost(Moved(s, Store(e)), sid, id) <==> !W.Caught(s.worker)
  {
    var s' := Moved(s, Store(e));
    W.InsertExact(s.worker, e, e.deadline);
    assert s'.worker.packages[s.worker.counter] == s.worker.packages[s.worker.counter];
    if W.Caught(s.worker) {
      assert W.Safe(s'.worker, s.worker.counter);
    }
  }

  // ---------------------------------------------------------------- a run that loses one

  lemma {:induction false} FirstMove(s: Service, move: Move, rest: seq<Move>)
    requires Possible(s, move) && Runs(Moved(s, move), rest)
    ensures Runs(s, [move] + rest) && After(s, [move] + rest) == After(Moved(s, move), rest)
  {
    assert ([move] + rest)[1..] == rest;
  }

  lemma {:induction false} TwoMoves(s: Service, a: Move, b: Move)
    requires Possible(s, a) && Possible(Moved(s, a), b)
    ensures Runs(s, [a, b]) && After(s, [a, b]) == Moved(Moved(s, a), b)
  {
    FirstMove(Moved(s, a), b, []);
    FirstMove(s, a, [b] + []);
    assert [a] + ([b] + []) == [a, b];
  }

  lemma {:induction false} FiveMoves(s: Service, a: Move, b: Move, c: Move, d: Move, e: Move)
    requires Possible(s, a)
    requires Possible(Moved(s, a), b)
    requires Possible(Moved(Moved(s, a), b), c)
    requires Runs(Moved(Moved(Moved(s, a), b), c), [d, e])
    ensures Runs(s, [a, b, c, d, e])
    ensures After(s, [a, b, c, d, e]) == After(Moved(Moved(Moved(s, a), b), c), [d, e])
  {
    var s1 := Moved(s, a);
    var s2 := Moved(s1, b);
    FirstMove(s2, c, [d, e]);
    FirstMove(s1, b, [c] + [d, e]);
    FirstMove(s, a, [b] + ([c] + [d, e]));
    assert [a] + ([b] + ([c] + [d, e])) == [a, b, c, d, e];
  }

  const FullRange := UclampRange(UCLAMP_MIN, UCLAMP_MAX)
  const FirstVote := Change(VoteSetCpu(7, CPU_LOAD_UP, FullRange, 0, 100))
  const SecondVote := Change(VoteSetCpu(7, CPU_LOAD_RESET, FullRange, 0, 50))
  const FirstTimeout := Event(7, CPU_LOAD_UP, 100)
  const SecondTimeout := Event(7, CPU_LOAD_RESET, 50)

  /** Session 7 with both votes set. */
  ghost function BothSet(): Service {
    Moved(Moved(Moved(Start, Change(AddSession(7, 10, 0))), FirstVote), SecondVote)
  }

  lemma {:induction false} BothAreDecided()
    ensures var s := BothSet();
            && s.decided == multiset{FirstTimeout, SecondTimeout} && s.worker == W.Idle && s.inHand == multiset{}
            && View(s).IsActive(7, CPU_LOAD_UP)
  {
    var s1 := Moved(Start, Change(AddSession(7, 10, 0)));
    assert s1.decided == multiset{} && 7 in s1.sessions && !s1.sessions[7].IsActive(CPU_LOAD_UP);
    var s2 := Moved(s1, FirstVote);
    assert s2.decided == multiset{FirstTimeout} && !s2.sessions[7].IsActive(CPU_LOAD_RESET);
  }

  lemma {:induction false} BothAreStored(s: Service)
    requires s.decided == multiset{FirstTimeout, SecondTimeout} && s.worker == W.Idle && s.inHand == multiset{}
    requires View(s).IsActive(7, CPU_LOAD_UP)
    ensures Possible(s, Store(FirstTimeout)) && Possible(Moved(s, Store(FirstTimeout)), Store(SecondTimeout))
    ensures Lost(Moved(Moved(s, Store(FirstTimeout)), Store(SecondTimeout)), 7, CPU_LOAD_UP)
  {
    var s1 := Moved(s, Store(FirstTimeout));
    assert s1.decided == multiset{SecondTimeout};
    assert s1.worker.packages == map[1 := FirstTimeout];
    W.InsertIsSound(W.Idle, FirstTimeout, 100);
    W.InsertExact(W.Idle, FirstTimeout, 100);
    OvertakingLosesExactly(s1, SecondTimeout, 7, CPU_LOAD_UP);
  }

  /** From the start: two votes of a session are set, both timeouts are stored before either id is
      read, and the first vote's is lost. */
  lemma {:induction false} TwoVotesLoseATimeout()
    ensures var moves := [Change(AddSession(7, 10, 0)), FirstVote, SecondVote, Store(FirstTimeout), Store(SecondTimeout)];
            Runs(Start, moves) && Lost(After(Start, moves), 7, CPU_LOAD_UP)
  {
    BothAreDecided();
    BothAreStored(BothSet());
    TwoMoves(BothSet(), Store(FirstTimeout), Store(SecondTimeout));
    FiveMoves(Start, Change(AddSession(7, 10, 0)), FirstVote, SecondVote, Store(FirstTimeout), Store(SecondTimeout));
  }
}
