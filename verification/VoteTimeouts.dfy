/**
 The vote-timeout protocol (power-libperfmgr/aidl/PowerSessionManager.cpp voteSet, handleEvent,
 disableBoosts, updateTargetWorkDuration).  To keep the event queue short, a vote that is extended
 while active schedules no new event; the one already pending requeues itself.  Each lock-protected
 section is a step; an event may be waiting to be queued, queued, or already popped.
 */
module VoteTimeouts {
  import opened Votes

  type SessionId = int

  datatype Event = Event(sessionId: SessionId, voteId: VoteId, deadline: Time)

  /** aboutToQueue: decided in voteSet, its lock already released; popped: taken by the worker,
      handleEvent's lock not yet taken. */
  datatype Manager = Manager(sessions: map<SessionId, Table>,
                             aboutToQueue: multiset<Event>, queue: multiset<Event>, popped: multiset<Event>) {
    function Pending(): multiset<Event> {
      aboutToQueue + queue + popped
    }

    predicate IsActive(sid: SessionId, id: VoteId) {
      sid in sessions && sessions[sid].IsActive(id)
    }

    function Timeout(sid: SessionId, id: VoteId): Time
      requires sid in sessions
    {
      sessions[sid].Timeout(id)
    }
  }

  datatype Step =
    | AddSession(sid: SessionId, targetNs: int, now: Time)
    | RemoveSession(sid: SessionId)
    | VoteSetCpu(sid: SessionId, id: VoteId, uclamp: UclampRange, start: Time, durationNs: int)
    | VoteSetGpu(sid: SessionId, id: VoteId, capacity: int, start: Time, durationNs: int)
    | Enqueue(event: Event)
    | Pop(event: Event)
    | Handle(event: Event, now: Time)
    | Spurious(event: Event, now: Time)
    | DisableBoosts(sid: SessionId)
    | UpdateDuration(sid: SessionId, id: VoteId, durationNs: int)

  // ---------------------------------------------------------------- what the steps do

  predicate ShouldSchedule(v: Table, id: VoteId, deadline: Time) {
    !v.IsActive(id) || deadline < v.Timeout(id)
  }

  /** voteSet, once the vote itself has been put into the table. */
  function SetVote(m: Manager, sid: SessionId, id: VoteId, after: Table, deadline: Time): Manager
    requires sid in m.sessions
  {
    m.(sessions := m.sessions[sid := after],
       aboutToQueue := if ShouldSchedule(m.sessions[sid], id, deadline)
                       then m.aboutToQueue + multiset{Event(sid, id, deadline)} else m.aboutToQueue)
  }

  /** handleEvent's locked section. */
  function HandleEvent(m: Manager, e: Event, now: Time): Manager {
    if e.sessionId !in m.sessions then m
    else
      var v := m.sessions[e.sessionId];
      if !v.IsActive(e.voteId) then m
      else if v.Timeout(e.voteId) <= now then m.(sessions := m.sessions[e.sessionId := v.SetUse(e.voteId, false)])
      else m.(queue := m.queue + multiset{e.(deadline := v.Timeout(e.voteId))})
  }

  const BOOST_VOTES: seq<VoteId> :=
    [CPU_LOAD_UP, CPU_LOAD_RESET, CPU_LOAD_RESUME, VOTE_POWER_EFFICIENCY, GPU_LOAD_UP, GPU_LOAD_RESET]

  function SwitchOff(v: Table, ids: seq<VoteId>): Table {
    if ids == [] then v else SwitchOff(v, ids[..|ids| - 1]).SetUse(ids[|ids| - 1], false)
  }

  predicate Enabled(m: Manager, step: Step) {
    match step
    case Enqueue(e) => e in m.aboutToQueue
    case Pop(e) => e in m.queue
    case Handle(e, _) => e in m.popped
    case _ => true
  }

  function NewSession(targetNs: int, now: Time): Table {
    NoVotes.AddCpu(CPU_VOTE_DEFAULT, CpuVote(VoteRange(false, now, targetNs), UclampRange(UCLAMP_MIN, UCLAMP_MAX)))
  }

  function Next(m: Manager, step: Step): Manager
    requires Enabled(m, step)
  {
    match step
    case AddSession(sid, target, now) => if sid in m.sessions then m else m.(sessions := m.sessions[sid := NewSession(target, now)])
    case RemoveSession(sid) => m.(sessions := m.sessions - {sid})
    case VoteSetCpu(sid, id, u, start, d) =>
      if sid !in m.sessions then m
      else SetVote(m, sid, id, m.sessions[sid].AddCpu(id, CpuVote(VoteRange(true, start, d), u)), start + d)
    case VoteSetGpu(sid, id, c, start, d) =>
      if sid !in m.sessions then m
      else SetVote(m, sid, id, m.sessions[sid].AddGpu(id, GpuVote(VoteRange(true, start, d), c)), start + d)
    case Enqueue(e) => m.(aboutToQueue := m.aboutToQueue - multiset{e}, queue := m.queue + multiset{e})
    case Pop(e) => m.(queue := m.queue - multiset{e}, popped := m.popped + multiset{e})
    case Handle(e, now) => HandleEvent(m.(popped := m.popped - multiset{e}), e, now)
    case Spurious(e, now) => HandleEvent(m, e, now)
    case DisableBoosts(sid) => if sid !in m.sessions then m else m.(sessions := m.sessions[sid := SwitchOff(m.sessions[sid], BOOST_VOTES)])
    case UpdateDuration(sid, id, d) =>
      if sid !in m.sessions then m else m.(sessions := m.sessions[sid := m.sessions[sid].UpdateDuration(id, d)])
  }

  const Empty := Manager(map[], multiset{}, multiset{}, multiset{})

  // ---------------------------------------------------------------- the invariants

  /** An event of this vote is on its way. */
  ghost predicate Watched(m: Manager, sid: SessionId, id: VoteId) {
    exists e :: e in m.Pending() && e.sessionId == sid && e.voteId == id
  }

  /** ... and due no later than `limit`. */
  ghost predicate WatchedBy(m: Manager, sid: SessionId, id: VoteId, limit: Time) {
    exists e :: e in m.Pending() && e.sessionId == sid && e.voteId == id && e.deadline <= limit
  }

  ghost predicate AllWatched(m: Manager) {
    forall sid, id :: m.IsActive(sid, id) ==> Watched(m, sid, id)
  }

  ghost predicate AllDue(m: Manager) {
    forall sid, id :: m.IsActive(sid, id) ==> WatchedBy(m, sid, id, m.Timeout(sid, id))
  }

  // ---------------------------------------------------------------- tables

  /** What setting a vote does to the timing of all votes. */
  ghost predicate VoteSetTo(v: Table, v': Table, id: VoteId, r: VoteRange) {
    (v' == v || (v'.Has(id) && v'.Range(id) == r))
    && forall other :: other != id ==> v'.Has(other) == v.Has(other) && (v.Has(other) ==> v'.Range(other) == v.Range(other))
  }

  lemma {:induction false} AddCpuSets(v: Table, id: VoteId, c: CpuVote)
    ensures VoteSetTo(v, v.AddCpu(id, c), id, c.range)
  {
  }

  lemma {:induction false} AddGpuSets(v: Table, id: VoteId, g: GpuVote)
    ensures VoteSetTo(v, v.AddGpu(id, g), id, g.range)
  {
  }

  /** v' has no vote active that v has not, and the same timeouts for those. */
  ghost predicate FewerActive(v: Table, v': Table) {
    forall id :: v'.IsActive(id) ==> v.IsActive(id) && v'.Timeout(id) == v.Timeout(id)
  }

  lemma {:induction false} SetUseOff(v: Table, id: VoteId)
    ensures FewerActive(v, v.SetUse(id, false)) && !v.SetUse(id, false).IsActive(id)
    ensures forall other :: other != id ==> v.SetUse(id, false).IsActive(other) == v.IsActive(other)
  {
  }

  lemma {:induction false} SwitchOffAll(v: Table, ids: seq<VoteId>)
    ensures FewerActive(v, SwitchOff(v, ids))
    ensures forall i :: 0 <= i < |ids| ==> !SwitchOff(v, ids).IsActive(ids[i])
  {
    if ids != [] {
      SwitchOffAll(v, ids[..|ids| - 1]);
      SetUseOff(SwitchOff(v, ids[..|ids| - 1]), ids[|ids| - 1]);
    }
  }

  // ---------------------------------------------------------------- steps

  /** Events are only moved; or a session keeps at most its active votes. */
  lemma {:induction false} QuietStep(m: Manager, m': Manager)
    requires m.Pending() <= m'.Pending()
    requires forall sid :: sid in m'.sessions ==>
               if sid in m.sessions then FewerActive(m.sessions[sid], m'.sessions[sid])
               else forall id :: !m'.sessions[sid].IsActive(id)
    ensures AllWatched(m) ==> AllWatched(m')
    ensures AllDue(m) ==> AllDue(m')
  {
    forall sid, id | m'.IsActive(sid, id)
      ensures Watched(m, sid, id) ==> Watched(m', sid, id)
      ensures WatchedBy(m, sid, id, m.Timeout(sid, id)) ==> WatchedBy(m', sid, id, m'.Timeout(sid, id))
    {
      KeepsWatch(m, m', sid, id, m.Timeout(sid, id));
    }
  }

  lemma {:induction false} KeepsWatch(m: Manager, m': Manager, sid: SessionId, id: VoteId, limit: Time)
    requires m.Pending() <= m'.Pending()
    ensures Watched(m, sid, id) ==> Watched(m', sid, id)
    ensures WatchedBy(m, sid, id, limit) ==> WatchedBy(m', sid, id, limit)
  {
    if Watched(m, sid, id) {
      var e :| e in m.Pending() && e.sessionId == sid && e.voteId == id;
      assert e in m'.Pending();
    }
    if WatchedBy(m, sid, id, limit) {
      var e :| e in m.Pending() && e.sessionId == sid && e.voteId == id && e.deadline <= limit;
      assert e in m'.Pending();
    }
  }

  lemma {:induction false} SetVoteKeeps(m: Manager, sid: SessionId, id: VoteId, after: Table, r: VoteRange)
    requires sid in m.sessions && r.active && VoteSetTo(m.sessions[sid], after, id, r)
    ensures AllWatched(m) ==> AllWatched(SetVote(m, sid, id, after, r.Timeout()))
    ensures AllDue(m) ==> AllDue(SetVote(m, sid, id, after, r.Timeout()))
  {
    var m' := SetVote(m, sid, id, after, r.Timeout());
    assert m.Pending() <= m'.Pending();
    forall s, i | m'.IsActive(s, i)
      ensures AllWatched(m) ==> Watched(m', s, i)
      ensures AllDue(m) ==> WatchedBy(m', s, i, m'.Timeout(s, i))
    {
      if (s, i) == (sid, id) && after != m.sessions[sid] {
        SetVoteKeepsItself(m, sid, id, after, r);
      } else {
        assert m.IsActive(s, i) && m'.Timeout(s, i) == m.Timeout(s, i);
        KeepsWatch(m, m', s, i, m.Timeout(s, i));
      }
    }
  }

  lemma {:induction false} SetVoteKeepsItself(m: Manager, sid: SessionId, id: VoteId, after: Table, r: VoteRange)
    requires sid in m.sessions && r.active && after.Has(id) && after.Range(id) == r
    ensures var m' := SetVote(m, sid, id, after, r.Timeout());
            && (AllWatched(m) ==> Watched(m', sid, id))
            && (AllDue(m) ==> WatchedBy(m', sid, id, r.Timeout()))
  {
    var m' := SetVote(m, sid, id, after, r.Timeout());
    if ShouldSchedule(m.sessions[sid], id, r.Timeout()) {
      assert Event(sid, id, r.Timeout()) in m'.Pending();
    } else {
      assert m.IsActive(sid, id) && m.Timeout(sid, id) <= r.Timeout();
      if AllDue(m) {
        assert WatchedBy(m, sid, id, r.Timeout());
      }
      KeepsWatch(m, m', sid, id, r.Timeout());
    }
  }

  /** handleEvent: the event may be gone afterwards, yet every active vote stays watched. */
  lemma {:induction false} HandleKeeps(m: Manager, less: Manager, e: Event, now: Time)
    requires less.sessions == m.sessions && m.Pending() == less.Pending() + multiset{e}
    ensures AllWatched(m) ==> AllWatched(HandleEvent(less, e, now))
    ensures AllDue(m) ==> AllDue(HandleEvent(less, e, now))
  {
    var m' := HandleEvent(less, e, now);
    assert less.Pending() <= m'.Pending();
    forall s, i | m'.IsActive(s, i)
      ensures AllWatched(m) ==> Watched(m', s, i)
      ensures AllDue(m) ==> WatchedBy(m', s, i, m'.Timeout(s, i))
    {
      if s == e.sessionId && i == e.voteId {
        HandleKeepsItself(less, e, now);
      } else {
        HandleKeepsOthers(m, less, e, now, s, i);
      }
    }
  }

  lemma {:induction false} HandleKeepsItself(m: Manager, e: Event, now: Time)
    requires HandleEvent(m, e, now).IsActive(e.sessionId, e.voteId)
    ensures var m' := HandleEvent(m, e, now);
            Watched(m', e.sessionId, e.voteId) && WatchedBy(m', e.sessionId, e.voteId, m'.Timeout(e.sessionId, e.voteId))
  {
    var v := m.sessions[e.sessionId];
    SetUseOff(v, e.voteId);
    var m' := HandleEvent(m, e, now);
    assert m'.sessions == m.sessions;
    assert e.(deadline := v.Timeout(e.voteId)) in m'.Pending();
  }

  lemma {:induction false} HandleKeepsOthers(m: Manager, less: Manager, e: Event, now: Time, s: SessionId, i: VoteId)
    requires less.sessions == m.sessions && m.Pending() == less.Pending() + multiset{e}
    requires HandleEvent(less, e, now).IsActive(s, i) && !(s == e.sessionId && i == e.voteId)
    ensures var m' := HandleEvent(less, e, now);
            && m.IsActive(s, i) && m'.Timeout(s, i) == m.Timeout(s, i)
            && (Watched(m, s, i) ==> Watched(m', s, i))
            && (WatchedBy(m, s, i, m.Timeout(s, i)) ==> WatchedBy(m', s, i, m'.Timeout(s, i)))
  {
    var m' := HandleEvent(less, e, now);
    if e.sessionId in m.sessions {
      SetUseOff(m.sessions[e.sessionId], e.voteId);
    }
    assert m.IsActive(s, i) && m'.Timeout(s, i) == m.Timeout(s, i);
    WatchWithout(m, less, e, s, i, m.Timeout(s, i));
    KeepsWatch(less, m', s, i, m.Timeout(s, i));
  }

  /** Another vote's watch does not rest on this event. */
  lemma {:induction false} WatchWithout(m: Manager, less: Manager, e: Event, s: SessionId, i: VoteId, limit: Time)
    requires m.Pending() == less.Pending() + multiset{e} && !(s == e.sessionId && i == e.voteId)
    ensures Watched(m, s, i) ==> Watched(less, s, i)
    ensures WatchedBy(m, s, i, limit) ==> WatchedBy(less, s, i, limit)
  {
    if Watched(m, s, i) {
      var x :| x in m.Pending() && x.sessionId == s && x.voteId == i;
      assert x != e && x in less.Pending();
    }
    if WatchedBy(m, s, i, limit) {
      var x :| x in m.Pending() && x.sessionId == s && x.voteId == i && x.deadline <= limit;
      assert x != e && x in less.Pending();
    }
  }

  lemma {:induction false} SpuriousKeeps(m: Manager, e: Event, now: Time)
    ensures AllWatched(m) ==> AllWatched(HandleEvent(m, e, now))
    ensures AllDue(m) ==> AllDue(HandleEvent(m, e, now))
  {
    var m' := HandleEvent(m, e, now);
    if e.sessionId in m.sessions {
      SetUseOff(m.sessions[e.sessionId], e.voteId);
    }
    assert m.Pending() <= m'.Pending();
    QuietStep(m, m');
  }

  /** What an update of the target duration must meet for the pending event to stay in time. */
  ghost predicate StaysDue(m: Manager, sid: SessionId, id: VoteId, durationNs: int) {
    m.IsActive(sid, id) ==> WatchedBy(m, sid, id, m.sessions[sid].Range(id).startTime + durationNs)
  }

  lemma {:induction false} UpdateShape(v: Table, id: VoteId, d: int)
    ensures forall i :: v.UpdateDuration(id, d).IsActive(i) == v.IsActive(i)
    ensures forall i :: i != id && v.IsActive(i) ==> v.UpdateDuration(id, d).Timeout(i) == v.Timeout(i)
    ensures v.IsActive(id) ==> v.UpdateDuration(id, d).Timeout(id) == v.Range(id).startTime + d
  {
  }

  lemma {:induction false} UpdateKeepsWatched(m: Manager, sid: SessionId, id: VoteId, d: int)
    requires AllWatched(m)
    ensures AllWatched(Next(m, UpdateDuration(sid, id, d)))
  {
    var m' := Next(m, UpdateDuration(sid, id, d));
    if sid in m.sessions {
      UpdateShape(m.sessions[sid], id, d);
    }
    forall s, i | m'.IsActive(s, i)
      ensures Watched(m', s, i)
    {
      assert m.IsActive(s, i);
      KeepsWatch(m, m', s, i, 0);
    }
  }

  lemma {:induction false} UpdateKeepsDue(m: Manager, sid: SessionId, id: VoteId, d: int)
    requires AllDue(m)
    ensures AllDue(Next(m, UpdateDuration(sid, id, d))) <==> StaysDue(m, sid, id, d)
  {
    var m' := Next(m, UpdateDuration(sid, id, d));
    if sid in m.sessions {
      UpdateShape(m.sessions[sid], id, d);
    }
    if StaysDue(m, sid, id, d) {
      forall s, i | m'.IsActive(s, i)
        ensures WatchedBy(m', s, i, m'.Timeout(s, i))
      {
        assert m.IsActive(s, i);
        KeepsWatch(m, m', s, i, m'.Timeout(s, i));
      }
    }
    if AllDue(m') && m.IsActive(sid, id) {
      assert WatchedBy(m', sid, id, m'.Timeout(sid, id));
      KeepsWatch(m', m, sid, id, m'.Timeout(sid, id));
    }
  }

  /** The deadline of the vote's first pending event. */
  ghost predicate IsFirstDeadline(m: Manager, sid: SessionId, id: VoteId, first: Time) {
    && Event(sid, id, first) in m.Pending()
    && forall e :: e in m.Pending() && e.sessionId == sid && e.voteId == id ==> first <= e.deadline
  }

  /** A vote that is still active at some moment at or after its end, with no event of it due by then. */
  ghost predicate Outlives(m: Manager, sid: SessionId, id: VoteId) {
    m.IsActive(sid, id) && exists now :: m.Timeout(sid, id) <= now && !WatchedBy(m, sid, id, now)
  }

  /** Events in time means exactly that no vote outlives its end. */
  lemma {:induction false} DueMeansNoneOutlives(m: Manager)
    ensures AllDue(m) <==> forall sid, id :: !Outlives(m, sid, id)
  {
    forall sid, id | m.IsActive(sid, id)
      ensures Outlives(m, sid, id) <==> !WatchedBy(m, sid, id, m.Timeout(sid, id))
    {
      WatchGrows(m, sid, id, m.Timeout(sid, id));
    }
  }

  lemma {:induction false} WatchGrows(m: Manager, sid: SessionId, id: VoteId, limit: Time)
    ensures WatchedBy(m, sid, id, limit) ==> forall now :: limit <= now ==> WatchedBy(m, sid, id, now)
  {
    if WatchedBy(m, sid, id, limit) {
      var e :| e in m.Pending() && e.sessionId == sid && e.voteId == id && e.deadline <= limit;
      forall now | limit <= now ensures WatchedBy(m, sid, id, now) {
        assert e.deadline <= now;
      }
    }
  }

  /** An update of an active vote's duration keeps every event in time exactly when the vote's new
      end is not before the deadline of its first pending event. */
  lemma {:induction false} UpdateDurationExact(m: Manager, sid: SessionId, id: VoteId, d: int, first: Time)
    requires AllDue(m) && m.IsActive(sid, id) && IsFirstDeadline(m, sid, id, first)
    ensures AllDue(Next(m, UpdateDuration(sid, id, d))) <==> first <= m.sessions[sid].Range(id).startTime + d
  {
    UpdateKeepsDue(m, sid, id, d);
    var end := m.sessions[sid].Range(id).startTime + d;
    if first <= end {
      var e := Event(sid, id, first);
      assert e in m.Pending() && e.deadline <= end;
    }
  }

  /** For a vote just set, with no older event of it around: an update is in time exactly when it
      does not shorten the duration the vote was set with, and the vote outlives its end otherwise. */
  lemma {:induction false} UpdateAfterVoteSetExact(m: Manager, sid: SessionId, id: VoteId, u: UclampRange, start: Time, d0: int, d: int)
    requires AllDue(m) && sid in m.sessions && !IsGpuVote(id) && !Watched(m, sid, id)
    ensures var m' := Next(Next(m, VoteSetCpu(sid, id, u, start, d0)), UpdateDuration(sid, id, d));
            && (AllDue(m') <==> d0 <= d)
            && (Outlives(m', sid, id) <==> d < d0)
  {
    var m1 := Next(m, VoteSetCpu(sid, id, u, start, d0));
    FreshVoteHasOneEvent(m, sid, id, u, start, d0);
    CpuVoteKeeps(m, sid, id, u, start, d0);
    UpdateDurationExact(m1, sid, id, d, start + d0);
    OutlivesAfterUpdate(m1, sid, id, d, start + d0);
  }

  lemma {:induction false} FreshVoteHasOneEvent(m: Manager, sid: SessionId, id: VoteId, u: UclampRange, start: Time, d0: int)
    requires AllDue(m) && sid in m.sessions && !IsGpuVote(id) && !Watched(m, sid, id)
    ensures var m1 := Next(m, VoteSetCpu(sid, id, u, start, d0));
            && m1.IsActive(sid, id) && m1.sessions[sid].Range(id) == VoteRange(true, start, d0)
            && IsFirstDeadline(m1, sid, id, start + d0)
  {
    assert !m.IsActive(sid, id) by {
      assert forall t :: WatchedBy(m, sid, id, t) ==> Watched(m, sid, id);
    }
    var m1 := Next(m, VoteSetCpu(sid, id, u, start, d0));
    var e := Event(sid, id, start + d0);
    assert m1.Pending() == m.Pending() + multiset{e};
    forall x | x in m1.Pending() && x.sessionId == sid && x.voteId == id
      ensures start + d0 <= x.deadline
    {
      assert x == e || x in m.Pending();
    }
  }

  lemma {:induction false} OutlivesAfterUpdate(m: Manager, sid: SessionId, id: VoteId, d: int, first: Time)
    requires m.IsActive(sid, id) && IsFirstDeadline(m, sid, id, first)
    ensures Outlives(Next(m, UpdateDuration(sid, id, d)), sid, id) <==> m.sessions[sid].Range(id).startTime + d < first
  {
    var m' := Next(m, UpdateDuration(sid, id, d));
    UpdateShape(m.sessions[sid], id, d);
    var end := m.sessions[sid].Range(id).startTime + d;
    assert m'.Pending() == m.Pending() && m'.Timeout(sid, id) == end;
    if end < first {
      assert !WatchedBy(m', sid, id, end);
    } else {
      assert Event(sid, id, first) in m'.Pending();
      assert WatchedBy(m', sid, id, end);
      WatchGrows(m', sid, id, end);
    }
  }

  /** In particular, a lengthened duration is always safe. */
  lemma {:induction false} LengtheningIsSafe(m: Manager, sid: SessionId, id: VoteId, d: int)
    requires AllDue(m) && (m.IsActive(sid, id) ==> m.sessions[sid].Range(id).durationNs <= d)
    ensures AllDue(Next(m, UpdateDuration(sid, id, d)))
  {
    if m.IsActive(sid, id) {
      var t := m.Timeout(sid, id);
      assert WatchedBy(m, sid, id, t);
      var e :| e in m.Pending() && e.sessionId == sid && e.voteId == id && e.deadline <= t;
      assert e.deadline <= m.sessions[sid].Range(id).startTime + d;
    }
    UpdateKeepsDue(m, sid, id, d);
  }

  lemma {:induction false} SessionsKeep(m: Manager, step: Step)
    requires step.AddSession? || step.RemoveSession? || step.DisableBoosts?
    ensures AllWatched(m) ==> AllWatched(Next(m, step))
    ensures AllDue(m) ==> AllDue(Next(m, step))
  {
    if step.DisableBoosts? && step.sid in m.sessions {
      SwitchOffAll(m.sessions[step.sid], BOOST_VOTES);
    }
    QuietStep(m, Next(m, step));
  }

  lemma {:induction false} MovesKeep(m: Manager, step: Step)
    requires (step.Enqueue? || step.Pop?) && Enabled(m, step)
    ensures AllWatched(m) ==> AllWatched(Next(m, step))
    ensures AllDue(m) ==> AllDue(Next(m, step))
  {
    assert m.Pending() == Next(m, step).Pending();
    QuietStep(m, Next(m, step));
  }

  lemma {:induction false} CpuVoteKeeps(m: Manager, sid: SessionId, id: VoteId, u: UclampRange, start: Time, d: int)
    ensures AllWatched(m) ==> AllWatched(Next(m, VoteSetCpu(sid, id, u, start, d)))
    ensures AllDue(m) ==> AllDue(Next(m, VoteSetCpu(sid, id, u, start, d)))
  {
    if sid in m.sessions {
      var r := VoteRange(true, start, d);
      AddCpuSets(m.sessions[sid], id, CpuVote(r, u));
      SetVoteKeeps(m, sid, id, m.sessions[sid].AddCpu(id, CpuVote(r, u)), r);
    }
  }

  lemma {:induction false} GpuVoteKeeps(m: Manager, sid: SessionId, id: VoteId, capacity: int, start: Time, d: int)
    ensures AllWatched(m) ==> AllWatched(Next(m, VoteSetGpu(sid, id, capacity, start, d)))
    ensures AllDue(m) ==> AllDue(Next(m, VoteSetGpu(sid, id, capacity, start, d)))
  {
    if sid in m.sessions {
      var r := VoteRange(true, start, d);
      AddGpuSets(m.sessions[sid], id, GpuVote(r, capacity));
      SetVoteKeeps(m, sid, id, m.sessions[sid].AddGpu(id, GpuVote(r, capacity)), r);
    }
  }

  lemma {:induction false} HandleStepKeeps(m: Manager, step: Step)
    requires step.Handle? && Enabled(m, step)
    ensures AllWatched(m) ==> AllWatched(Next(m, step))
    ensures AllDue(m) ==> AllDue(Next(m, step))
  {
    var less := m.(popped := m.popped - multiset{step.event});
    assert m.Pending() == less.Pending() + multiset{step.event};
    HandleKeeps(m, less, step.event, step.now);
  }

  lemma {:induction false} StepKeeps(m: Manager, step: Step)
    requires Enabled(m, step)
    ensures AllWatched(m) ==> AllWatched(Next(m, step))
    ensures AllDue(m) && (step.UpdateDuration? ==> StaysDue(m, step.sid, step.id, step.durationNs)) ==> AllDue(Next(m, step))
  {
    match step
    case AddSession(_, _, _) => SessionsKeep(m, step);
    case RemoveSession(_) => SessionsKeep(m, step);
    case DisableBoosts(_) => SessionsKeep(m, step);
    case VoteSetCpu(sid, id, u, start, d) => CpuVoteKeeps(m, sid, id, u, start, d);
    case VoteSetGpu(sid, id, c, start, d) => GpuVoteKeeps(m, sid, id, c, start, d);
    case Enqueue(_) => MovesKeep(m, step);
    case Pop(_) => MovesKeep(m, step);
    case Handle(_, _) => HandleStepKeeps(m, step);
    case Spurious(e, now) => SpuriousKeeps(m, e, now);
    case UpdateDuration(sid, id, d) =>
      if AllWatched(m) { UpdateKeepsWatched(m, sid, id, d); }
      if AllDue(m) { UpdateKeepsDue(m, sid, id, d); }
  }

  // ---------------------------------------------------------------- whole runs

  /** Every step of the run is possible when it is taken. */
  predicate Runs(m: Manager, steps: seq<Step>)
    decreases |steps|
  {
    steps == [] || (Enabled(m, steps[0]) && Runs(Next(m, steps[0]), steps[1..]))
  }

  function After(m: Manager, steps: seq<Step>): Manager
    requires Runs(m, steps)
    decreases |steps|
  {
    if steps == [] then m else After(Next(m, steps[0]), steps[1..])
  }

  /** ... and no update of a duration moves a vote's end before all of its pending events. */
  ghost predicate Unhurried(m: Manager, steps: seq<Step>)
    requires Runs(m, steps)
    decreases |steps|
  {
    steps == [] || ((steps[0].UpdateDuration? ==> StaysDue(m, steps[0].sid, steps[0].id, steps[0].durationNs))
                    && Unhurried(Next(m, steps[0]), steps[1..]))
  }

  /** Over every interleaving: no active vote is ever forgotten. */
  lemma {:induction false} NoVoteIsForgotten(m: Manager, steps: seq<Step>)
    requires AllWatched(m) && Runs(m, steps)
    ensures AllWatched(After(m, steps))
    decreases |steps|
  {
    if steps != [] {
      StepKeeps(m, steps[0]);
      NoVoteIsForgotten(Next(m, steps[0]), steps[1..]);
    }
  }

  lemma {:induction false} EventsStayInTime(m: Manager, steps: seq<Step>)
    requires AllDue(m) && Runs(m, steps) && Unhurried(m, steps)
    ensures AllDue(After(m, steps))
    decreases |steps|
  {
    if steps != [] {
      StepKeeps(m, steps[0]);
      EventsStayInTime(Next(m, steps[0]), steps[1..]);
    }
  }

  /** The worker has caught up with the clock. */
  ghost predicate CaughtUp(m: Manager, now: Time) {
    forall e :: e in m.Pending() ==> now < e.deadline
  }

  /** Once every event due by now has been handled, no vote is active past its end. */
  lemma {:induction false} NoVoteOutlivesItsTimeout(steps: seq<Step>, now: Time, sid: SessionId, id: VoteId)
    requires Runs(Empty, steps) && Unhurried(Empty, steps)
    requires CaughtUp(After(Empty, steps), now) && After(Empty, steps).IsActive(sid, id)
    ensures now < After(Empty, steps).Timeout(sid, id)
  {
    EventsStayInTime(Empty, steps);
    var m := After(Empty, steps);
    assert WatchedBy(m, sid, id, m.Timeout(sid, id));
  }

  /** No event, stale or duplicated, switches a vote off before its current end. */
  lemma {:induction false} NeverEarly(m: Manager, step: Step, sid: SessionId, id: VoteId)
    requires (step.Handle? || step.Spurious?) && Enabled(m, step)
    requires m.IsActive(sid, id) && !Next(m, step).IsActive(sid, id)
    ensures step.event.sessionId == sid && step.event.voteId == id && m.Timeout(sid, id) <= step.now
  {
    if step.event.sessionId in m.sessions {
      SetUseOff(m.sessions[step.event.sessionId], step.event.voteId);
    }
  }

  /** Handling the event of an expired vote does switch it off, whichever event it was. */
  lemma {:induction false} ExpiredIsSwitchedOff(m: Manager, e: Event, now: Time)
    requires e.sessionId in m.sessions && m.Timeout(e.sessionId, e.voteId) <= now
    ensures !HandleEvent(m, e, now).IsActive(e.sessionId, e.voteId)
  {
    SetUseOff(m.sessions[e.sessionId], e.voteId);
  }

  /** The condition in EventsStayInTime cannot be dropped: a run that shortens an active vote leaves
      it switched on at time 60, past its end 50, with no event due before 100. */
  lemma {:induction false} ShorteningOutlives()
    ensures var steps := [AddSession(7, 10, 0),
                          VoteSetCpu(7, CPU_VOTE_DEFAULT, UclampRange(100, 1024), 0, 100),
                          UpdateDuration(7, CPU_VOTE_DEFAULT, 50)];
            && Runs(Empty, steps) && CaughtUp(After(Empty, steps), 60)
            && After(Empty, steps).IsActive(7, CPU_VOTE_DEFAULT) && After(Empty, steps).Timeout(7, CPU_VOTE_DEFAULT) == 50
            && Outlives(After(Empty, steps), 7, CPU_VOTE_DEFAULT)
  {
    var a := AddSession(7, 10, 0);
    var b := VoteSetCpu(7, CPU_VOTE_DEFAULT, UclampRange(100, 1024), 0, 100);
    var c := UpdateDuration(7, CPU_VOTE_DEFAULT, 50);
    var m1 := Next(Empty, a);
    var m2 := Next(m1, b);
    var m3 := Next(m2, c);
    assert m3.Pending() == multiset{Event(7, CPU_VOTE_DEFAULT, 100)};
    assert Outlives(m3, 7, CPU_VOTE_DEFAULT) by {
      assert m3.Timeout(7, CPU_VOTE_DEFAULT) <= 60 && !WatchedBy(m3, 7, CPU_VOTE_DEFAULT, 60);
    }
    var steps := [a, b, c];
    assert steps[1..] == [b, c] && steps[1..][1..] == [c] && steps[1..][1..][1..] == [];
    assert Runs(m3, []) && After(m3, []) == m3;
    assert Runs(m2, [c]) && After(m2, [c]) == m3;
    assert Runs(m1, [b, c]) && After(m1, [b, c]) == m3;
  }

  // ---------------------------------------------------------------- the manager's methods

  /** The part of PowerSessionManager that the protocol touches.  Each method returns the events it
      hands to the background worker. */
  class VoteManager {
    var sessions: map<SessionId, Table>

    method VoteSet(sid: SessionId, id: VoteId, uclamp: UclampRange, start: Time, durationNs: int)
      returns (schedule: seq<Event>)
      modifies this
      ensures forall m: Manager :: m.sessions == old(sessions) ==>
                var m' := Next(m, VoteSetCpu(sid, id, uclamp, start, durationNs));
                m'.sessions == sessions && m'.aboutToQueue == m.aboutToQueue + multiset(schedule)
    {
      schedule := [];
      if sid in sessions {
        var deadline := start + durationNs;
        if ShouldSchedule(sessions[sid], id, deadline) {
          schedule := [Event(sid, id, deadline)];
        }
        sessions := sessions[sid := sessions[sid].AddCpu(id, CpuVote(VoteRange(true, start, durationNs), uclamp))];
      }
    }

    method VoteSetCapacity(sid: SessionId, id: VoteId, capacity: int, start: Time, durationNs: int)
      returns (schedule: seq<Event>)
      modifies this
      ensures forall m: Manager :: m.sessions == old(sessions) ==>
                var m' := Next(m, VoteSetGpu(sid, id, capacity, start, durationNs));
                m'.sessions == sessions && m'.aboutToQueue == m.aboutToQueue + multiset(schedule)
    {
      schedule := [];
      if sid in sessions {
        var deadline := start + durationNs;
        if ShouldSchedule(sessions[sid], id, deadline) {
          schedule := [Event(sid, id, deadline)];
        }
        sessions := sessions[sid := sessions[sid].AddGpu(id, GpuVote(VoteRange(true, start, durationNs), capacity))];
      }
    }

    method OnEvent(e: Event, now: Time) returns (schedule: seq<Event>, recalculate: bool)
      modifies this
      ensures forall m: Manager :: m.sessions == old(sessions) ==>
                var m' := HandleEvent(m, e, now);
                m'.sessions == sessions && m'.queue == m.queue + multiset(schedule)
      ensures recalculate <==> (e.sessionId in old(sessions) && old(sessions)[e.sessionId].IsActive(e.voteId)
                                && old(sessions)[e.sessionId].Timeout(e.voteId) <= now)
    {
      schedule, recalculate := [], false;
      if e.sessionId in sessions {
        var active := sessions[e.sessionId].IsActive(e.voteId);
        var timeout := sessions[e.sessionId].Timeout(e.voteId);
        if active {
          if timeout <= now {
            sessions := sessions[e.sessionId := sessions[e.sessionId].SetUse(e.voteId, false)];
            recalculate := true;
          } else {
            schedule := [e.(deadline := timeout)];
          }
        }
      }
    }

    method DisableBoosts(sid: SessionId)
      modifies this
      ensures forall m: Manager :: m.sessions == old(sessions) ==> Next(m, Step.DisableBoosts(sid)).sessions == sessions
    {
      if sid in sessions {
        var v := sessions[sid];
        var i := 0;
        while i < |BOOST_VOTES|
          invariant 0 <= i <= |BOOST_VOTES|
          invariant v == SwitchOff(sessions[sid], BOOST_VOTES[..i])
        {
          assert BOOST_VOTES[..i + 1][..i] == BOOST_VOTES[..i];
          v := v.SetUse(BOOST_VOTES[i], false);
          i := i + 1;
        }
        assert BOOST_VOTES[..i] == BOOST_VOTES;
        sessions := sessions[sid := v];
      }
    }
  }
}
