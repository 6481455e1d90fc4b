/**
 What holds of the session/task map over every sequence of operations (power-libperfmgr/aidl/
 SessionTaskMap.cpp, the callers in PowerSessionManager.cpp and pausing in PowerHintSession.cpp),
 and the map's own methods.
 */
module SessionTaskMap {
  import opened Votes
  import opened TaskUclamp
  import opened SessionLinks

  datatype Op =
    | AddSession(sid: SessionId, value: Session, threads: seq<TaskId>)
    | RemoveSession(sid: SessionId)
    | SetThreads(sid: SessionId, threads: seq<TaskId>)
    | SetValue(sid: SessionId, value: Session)
    | ApplyUclamp(sid: SessionId, dead: seq<bool>)

  ghost function Do(m: TaskMap, op: Op): TaskMap
    requires Inverse(m)
  {
    match op
    case AddSession(sid, v, ts) => Add(m, sid, v, ts)
    case RemoveSession(sid) => Remove(m, sid)
    case SetThreads(sid, ts) => Replace(m, sid, ts)
    case SetValue(sid, v) => Update(m, sid, v)
    case ApplyUclamp(sid, dead) => Sweep(m, sid, dead)
  }

  lemma {:induction false} OpKeepsInverse(m: TaskMap, op: Op)
    requires Inverse(m)
    ensures Inverse(Do(m, op))
  {
    match op
    case AddSession(sid, v, ts) => AddKeepsInverse(m, sid, v, ts);
    case RemoveSession(sid) => RemoveKeepsInverse(m, sid);
    case SetThreads(sid, ts) => ReplaceKeepsInverse(m, sid, ts);
    case SetValue(sid, v) => UpdateKeepsInverse(m, sid, v);
    case ApplyUclamp(sid, dead) => SweepKeepsInverse(m, sid, dead);
  }

  /** After any sequence of operations the two maps are still inverse to each other. */
  ghost function After(m: TaskMap, ops: seq<Op>): (r: TaskMap)
    requires Inverse(m)
    ensures Inverse(r)
    decreases |ops|
  {
    if ops == [] then m
    else
      OpKeepsInverse(m, ops[0]);
      After(Do(m, ops[0]), ops[1..])
  }

  lemma {:induction false} InitiallyInverse()
    ensures Inverse(NoSessions)
  {
    forall t, r ensures Known(NoSessions, t, r) {
    }
  }

  /** The branches marked as inconsistent are dead: a linked task always leads back to its session. */
  lemma {:induction false} LinksLeadBack(m: TaskMap, sid: SessionId, t: TaskId)
    requires Inverse(m) && sid in m.sessions
    ensures t in m.sessions[sid].linked <==> t in m.tasks && m.sessions[sid].val in m.tasks[t]
  {
    assert Linked(m, sid, t);
    CountPositive(t, m.sessions[sid].linked);
    CountPositive(m.sessions[sid].val, ListOf(m.tasks, t));
  }

  // ---------------------------------------------------------------- replacing a session's tasks

  /** Those of a list that are not mapped, in order. */
  function Absent(ts: seq<TaskId>, tasks: Tasks): seq<TaskId> {
    if ts == [] then []
    else if ts[|ts| - 1] in tasks then Absent(ts[..|ts| - 1], tasks)
    else Absent(ts[..|ts| - 1], tasks) + [ts[|ts| - 1]]
  }

  lemma {:induction false} AbsentMembers(ts: seq<TaskId>, tasks: Tasks, t: TaskId)
    ensures t in Absent(ts, tasks) <==> t in ts && t !in tasks
  {
    if ts != [] {
      AbsentMembers(ts[..|ts| - 1], tasks, t);
    }
  }

  /** How many references replacing leaves. */
  lemma {:induction false} ReplaceNum(m: TaskMap, sid: SessionId, ts: seq<TaskId>, t: TaskId, r: Ref)
    requires Inverse(m) && sid in m.sessions
    ensures Num(Replace(m, sid, ts).tasks, t, r) ==
            if r == m.sessions[sid].val then 0 else if r == m.next then Count(t, ts) else Num(m.tasks, t, r)
  {
    var e := m.sessions[sid];
    assert Linked(m, sid, t) && Known(m, t, r);
    PullAllNum(m.tasks, e.linked, e.val, t, r);
    PushAllNum(PullAll(m.tasks, e.linked, e.val), ts, m.next, t, r);
  }

  lemma {:induction false} EntersExactly(m: TaskMap, sid: SessionId, ts: seq<TaskId>, t: TaskId)
    requires Inverse(m) && sid in m.sessions
    ensures t in Absent(ts, m.tasks) <==> t in Replace(m, sid, ts).tasks && t !in m.tasks
  {
    var m' := Replace(m, sid, ts);
    AbsentMembers(ts, m.tasks, t);
    CountPositive(t, ts);
    ReplaceNum(m, sid, ts, t, m.next);
    if t in m'.tasks {
      ReplaceKeepsInverse(m, sid, ts);
      var r := InTasks(m'.tasks, t);
      ReplaceNum(m, sid, ts, t, r);
    }
  }

  lemma {:induction false} LeavesExactly(m: TaskMap, sid: SessionId, ts: seq<TaskId>, t: TaskId)
    requires Inverse(m) && sid in m.sessions
    ensures t in Absent(m.sessions[sid].linked, Replace(m, sid, ts).tasks) <==> t in m.tasks && t !in Replace(m, sid, ts).tasks
  {
    var m' := Replace(m, sid, ts);
    AbsentMembers(m.sessions[sid].linked, m'.tasks, t);
    LinksLeadBack(m, sid, t);
    if t in m.tasks && t !in m'.tasks {
      var r := InTasks(m.tasks, t);
      assert Known(m, t, r);
      ReplaceNum(m, sid, ts, t, r);
      CountPositive(r, m.tasks[t]);
    }
  }

  /** What replacing must not touch. */
  ghost predicate KeepsTheRest(m: TaskMap, m': TaskMap, sid: SessionId)
    requires sid in m.sessions && sid in m'.sessions
  {
    && m'.sessions.Keys == m.sessions.Keys
    && (forall s :: s in m.sessions && s != sid ==> m'.sessions[s] == m.sessions[s])
    && (forall r :: r != m.sessions[sid].val && r in m.values ==> r in m'.values && m'.values[r] == m.values[r])
    && (forall t :: Without(ListOf(m'.tasks, t), m'.sessions[sid].val) == Without(ListOf(m.tasks, t), m.sessions[sid].val))
  }

  /** The references left after removal, in order, are those of the other sessions. */
  lemma {:induction false} RemoveLeavesOthers(m: TaskMap, sid: SessionId, t: TaskId)
    requires Inverse(m) && sid in m.sessions
    ensures ListOf(Remove(m, sid).tasks, t) == Without(ListOf(m.tasks, t), m.sessions[sid].val)
  {
    var e := m.sessions[sid];
    var after := PullAll(m.tasks, e.linked, e.val);
    assert Linked(m, sid, t);
    PullAllNum(m.tasks, e.linked, e.val, t, e.val);
    CountPositive(e.val, ListOf(after, t));
    WithoutAbsent(ListOf(after, t), e.val);
    PullAllKeepsOthers(m.tasks, e.linked, e.val, t);
  }

  lemma {:induction false} ReplaceLeavesOthers(m: TaskMap, sid: SessionId, ts: seq<TaskId>, t: TaskId)
    requires Inverse(m) && sid in m.sessions
    ensures Without(ListOf(Replace(m, sid, ts).tasks, t), m.next) == Without(ListOf(m.tasks, t), m.sessions[sid].val)
  {
    var bare := Remove(m, sid);
    RemoveLeavesOthers(m, sid, t);
    RemoveKeepsInverse(m, sid);
    assert Known(bare, t, m.next);
    CountPositive(m.next, ListOf(bare.tasks, t));
    WithoutAbsent(ListOf(bare.tasks, t), m.next);
    PushAllKeepsOthers(bare.tasks, ts, m.next, t);
  }

  /** Replacing gives the session exactly the new tasks and its old fields, and leaves every other
      session's links, and their order in every task's list, as they were. */
  lemma {:induction false} ReplaceExact(m: TaskMap, sid: SessionId, ts: seq<TaskId>)
    requires Inverse(m) && sid in m.sessions
    ensures var m' := Replace(m, sid, ts);
            && sid in m'.sessions && m'.sessions[sid].linked == ts
            && m'.sessions[sid].val in m'.values
            && m'.values[m'.sessions[sid].val] == m.values[m.sessions[sid].val]
            && KeepsTheRest(m, m', sid)
  {
    var m' := Replace(m, sid, ts);
    forall t ensures Without(ListOf(m'.tasks, t), m'.sessions[sid].val) == Without(ListOf(m.tasks, t), m.sessions[sid].val) {
      ReplaceLeavesOthers(m, sid, ts, t);
    }
  }

  // ---------------------------------------------------------------- the range of a task

  ghost predicate Resolved(values: map<Ref, Value>, refs: seq<Ref>) {
    forall i :: 0 <= i < |refs| ==> refs[i] in values
  }

  ghost function SessionsOf(values: map<Ref, Value>, refs: seq<Ref>): seq<Session>
    requires Resolved(values, refs)
  {
    seq(|refs|, i requires 0 <= i < |refs| => values[refs[i]].session)
  }

  lemma {:induction false} ListsResolve(m: TaskMap, t: TaskId)
    requires Inverse(m)
    ensures Resolved(m.values, ListOf(m.tasks, t))
  {
    var refs := ListOf(m.tasks, t);
    forall i | 0 <= i < |refs| ensures refs[i] in m.values {
      assert Known(m, t, refs[i]);
      CountPositive(refs[i], refs);
    }
  }

  /** getTaskVoteRange */
  ghost function TaskRange(m: TaskMap, t: TaskId, now: Time, e: Efficiency): UclampRange
    requires Inverse(m)
  {
    ListsResolve(m, t);
    VisitAll(SessionsOf(m.values, ListOf(m.tasks, t)), now, e)
  }

  // ---------------------------------------------------------------- pausing

  /** A session that is not registered or has no tasks. */
  predicate Unlinked(m: TaskMap, sid: SessionId) {
    sid in m.sessions ==> m.sessions[sid].linked == []
  }

  /** The operation does not give the session tasks: no resume, no setThreads. */
  predicate Meanwhile(op: Op, sid: SessionId) {
    (op.AddSession? || op.SetThreads?) ==> op.sid != sid
  }

  /** The same maps, except possibly for the fields of one session. */
  ghost predicate AgreeBut(m: TaskMap, m': TaskMap, sid: SessionId) {
    && m'.sessions == m.sessions && m'.tasks == m.tasks && m'.next == m.next
    && m'.values.Keys == m.values.Keys
    && (forall r :: r in m.values && m.values[r].sessionId != sid ==> m'.values[r] == m.values[r])
  }

  lemma {:induction false} NotListed(m: TaskMap, sid: SessionId, t: TaskId, r: Ref)
    requires Inverse(m) && Unlinked(m, sid) && r in ListOf(m.tasks, t)
    ensures r in m.values && m.values[r].sessionId != sid
  {
    assert Known(m, t, r);
    CountPositive(r, ListOf(m.tasks, t));
    if sid in m.sessions {
      LinksLeadBack(m, sid, t);
    }
  }

  /** Nothing of an unlinked session shows in any task's range. */
  lemma {:induction false} UnlinkedIsInvisible(m: TaskMap, m': TaskMap, sid: SessionId, t: TaskId, now: Time, e: Efficiency)
    requires Inverse(m) && Inverse(m') && AgreeBut(m, m', sid) && Unlinked(m, sid)
    ensures TaskRange(m, t, now, e) == TaskRange(m', t, now, e)
  {
    ListsResolve(m, t);
    ListsResolve(m', t);
    var refs := ListOf(m.tasks, t);
    forall i | 0 <= i < |refs| ensures m'.values[refs[i]] == m.values[refs[i]] {
      NotListed(m, sid, t, refs[i]);
    }
    assert SessionsOf(m.values, refs) == SessionsOf(m'.values, refs);
  }

  /** ... so taking the session away altogether would change no range. */
  lemma {:induction false} UnlinkedAddsNothing(m: TaskMap, sid: SessionId, t: TaskId, now: Time, e: Efficiency)
    requires Inverse(m) && Unlinked(m, sid)
    ensures Inverse(Remove(m, sid))
    ensures TaskRange(m, t, now, e) == TaskRange(Remove(m, sid), t, now, e)
  {
    var m' := Remove(m, sid);
    RemoveKeepsInverse(m, sid);
    ListsResolve(m, t);
    ListsResolve(m', t);
    assert SessionsOf(m.values, ListOf(m.tasks, t)) == SessionsOf(m'.values, ListOf(m'.tasks, t));
  }

  /** One operation, on two maps that differ in the paused session's fields; its own votes, flags and
      uclamp updates may be present on one side only. */
  lemma {:induction false} AgreementKept(m: TaskMap, m': TaskMap, sid: SessionId, op: Op)
    requires Inverse(m) && Inverse(m') && AgreeBut(m, m', sid) && Unlinked(m, sid) && Meanwhile(op, sid)
    ensures Unlinked(Do(m, op), sid)
    ensures AgreeBut(Do(m, op), Do(m', op), sid)
  {
  }

  lemma {:induction false} OwnOpsOnlyTouchFields(m: TaskMap, m': TaskMap, sid: SessionId, op: Op)
    requires Inverse(m) && Inverse(m') && AgreeBut(m, m', sid) && Unlinked(m, sid)
    requires (op.SetValue? || op.ApplyUclamp?) && op.sid == sid
    ensures Unlinked(Do(m, op), sid)
    ensures AgreeBut(Do(m, op), m', sid)
  {
    if sid in m.sessions {
      assert m.sessions[sid].(linked := []) == m.sessions[sid];
      assert m.sessions[sid := m.sessions[sid]] == m.sessions;
    }
  }

  /** The run without the paused session's own votes, flags and uclamp updates. */
  function Silenced(ops: seq<Op>, sid: SessionId): seq<Op> {
    if ops == [] then []
    else if (ops[0].SetValue? || ops[0].ApplyUclamp?) && ops[0].sid == sid then Silenced(ops[1..], sid)
    else [ops[0]] + Silenced(ops[1..], sid)
  }

  lemma {:induction false} SilencedRunAgrees(m: TaskMap, m': TaskMap, sid: SessionId, ops: seq<Op>)
    requires Inverse(m) && Inverse(m') && AgreeBut(m, m', sid) && Unlinked(m, sid)
    requires forall i :: 0 <= i < |ops| ==> Meanwhile(ops[i], sid)
    ensures Unlinked(After(m, ops), sid)
    ensures AgreeBut(After(m, ops), After(m', Silenced(ops, sid)), sid)
    decreases |ops|
  {
    if ops != [] {
      var op := ops[0];
      OpKeepsInverse(m, op);
      if (op.SetValue? || op.ApplyUclamp?) && op.sid == sid {
        OwnOpsOnlyTouchFields(m, m', sid, op);
        SilencedRunAgrees(Do(m, op), m', sid, ops[1..]);
      } else {
        OpKeepsInverse(m', op);
        AgreementKept(m, m', sid, op);
        SilencedRunAgrees(Do(m, op), Do(m', op), sid, ops[1..]);
        var rest := Silenced(ops[1..], sid);
        assert ([op] + rest)[0] == op && ([op] + rest)[1..] == rest;
      }
    }
  }

  /** From pause until resume or setThreads, whatever votes and hints the paused session sends and
      whatever the other sessions do: every task's range is the one of the run without those votes
      and hints, and the one the other sessions alone would give. */
  lemma {:induction false} PausedSessionIsInert(m: TaskMap, sid: SessionId, meanwhile: seq<Op>, t: TaskId, now: Time, e: Efficiency)
    requires Inverse(m)
    requires forall i :: 0 <= i < |meanwhile| ==> Meanwhile(meanwhile[i], sid)
    ensures Inverse(Replace(m, sid, []))
    ensures TaskRange(After(Replace(m, sid, []), meanwhile), t, now, e)
            == TaskRange(After(Replace(m, sid, []), Silenced(meanwhile, sid)), t, now, e)
    ensures Inverse(Remove(After(Replace(m, sid, []), meanwhile), sid))
    ensures TaskRange(After(Replace(m, sid, []), meanwhile), t, now, e)
            == TaskRange(Remove(After(Replace(m, sid, []), meanwhile), sid), t, now, e)
  {
    var p := Replace(m, sid, []);
    ReplaceKeepsInverse(m, sid, []);
    SilencedRunAgrees(p, p, sid, meanwhile);
    UnlinkedIsInvisible(After(p, meanwhile), After(p, Silenced(meanwhile, sid)), sid, t, now, e);
    UnlinkedAddsNothing(After(p, meanwhile), sid, t, now, e);
  }

  /** Right after pausing, a task's range is that of its other sessions alone, in link order. */
  lemma {:induction false} PauseLeavesTheOthers(m: TaskMap, sid: SessionId, t: TaskId, now: Time, e: Efficiency)
    requires Inverse(m) && sid in m.sessions
    ensures var others := Without(ListOf(m.tasks, t), m.sessions[sid].val);
            && Inverse(Replace(m, sid, [])) && Resolved(m.values, others)
            && TaskRange(Replace(m, sid, []), t, now, e) == VisitAll(SessionsOf(m.values, others), now, e)
  {
    var p := Replace(m, sid, []);
    var others := Without(ListOf(m.tasks, t), m.sessions[sid].val);
    ReplaceKeepsInverse(m, sid, []);
    RemoveLeavesOthers(m, sid, t);
    assert ListOf(p.tasks, t) == others;
    RemoveKeepsInverse(m, sid);
    ListsResolve(Remove(m, sid), t);
    ListsResolve(p, t);
    assert SessionsOf(p.values, others) == SessionsOf(m.values, others);
  }

  // ---------------------------------------------------------------- the map's methods

  class LinkTable {
    var sessions: map<SessionId, Entry>
    var tasks: Tasks
    var values: map<Ref, Value>
    var next: Ref

    ghost function View(): TaskMap
      reads this
    {
      TaskMap(sessions, tasks, values, next)
    }

    constructor ()
      ensures View() == NoSessions && Inverse(View())
    {
      sessions, tasks, values, next := map[], map[], map[], 0;
      InitiallyInverse();
    }

    method AddEntry(sid: SessionId, v: Session, ts: seq<TaskId>) returns (ok: bool)
      modifies this
      ensures ok == (sid !in old(sessions)) && View() == Add(old(View()), sid, v, ts)
    {
      if sid in sessions {
        return false;
      }
      var r := next;
      next := next + 1;
      values := values[r := Value(sid, v)];
      sessions := sessions[sid := Entry(r, ts)];
      var i := 0;
      while i < |ts|
        invariant 0 <= i <= |ts| && tasks == PushAll(old(tasks), ts[..i], r)
        invariant sessions == old(sessions)[sid := Entry(r, ts)] && values == old(values)[r := Value(sid, v)]
        invariant next == r + 1
      {
        assert ts[..i + 1][..i] == ts[..i];
        tasks := Push(tasks, ts[i], r);
        i := i + 1;
      }
      assert ts[..i] == ts;
      return true;
    }

    method FindRef(refs: seq<Ref>, r: Ref) returns (i: nat)
      ensures i <= |refs| && r !in refs[..i] && (i < |refs| ==> refs[i] == r)
    {
      i := 0;
      while i < |refs| && refs[i] != r
        invariant i <= |refs| && r !in refs[..i]
      {
        i := i + 1;
      }
    }

    /** Erases one reference to r from a task's list, and the list with its last reference. */
    method EraseRef(t: TaskId, r: Ref) returns (found: bool)
      modifies this`tasks
      ensures found <==> t in old(tasks) && r in old(tasks)[t]
      ensures tasks == Pull(old(tasks), t, r)
    {
      if t !in tasks {
        return false;
      }
      var i := FindRef(tasks[t], r);
      if i == |tasks[t]| {
        assert tasks[t][..i] == tasks[t];
        return false;
      }
      EraseFirstAt(tasks[t], r, i);
      var left := tasks[t][..i] + tasks[t][i + 1..];
      tasks := if left == [] then tasks - {t} else tasks[t := left];
      return true;
    }

    method RemoveEntry(sid: SessionId) returns (ok: bool)
      modifies this
      ensures ok == (sid in old(sessions)) && View() == Remove(old(View()), sid)
    {
      if sid !in sessions {
        return false;
      }
      var e := sessions[sid];
      var i := 0;
      while i < |e.linked|
        invariant 0 <= i <= |e.linked| && tasks == PullAll(old(tasks), e.linked[..i], e.val)
        invariant sessions == old(sessions) && values == old(values) && next == old(next)
      {
        assert e.linked[..i + 1][..i] == e.linked[..i];
        var _ := EraseRef(e.linked[i], e.val);
        i := i + 1;
      }
      assert e.linked[..i] == e.linked;
      sessions := sessions - {sid};
      values := values - {e.val};
      return true;
    }

    method NotMapped(ts: seq<TaskId>) returns (r: seq<TaskId>)
      ensures r == Absent(ts, tasks)
    {
      r := [];
      var i := 0;
      while i < |ts|
        invariant 0 <= i <= |ts| && r == Absent(ts[..i], tasks)
      {
        assert ts[..i + 1][..i] == ts[..i];
        if ts[i] !in tasks {
          r := r + [ts[i]];
        }
        i := i + 1;
      }
      assert ts[..i] == ts;
    }

    /** Replaces a session's tasks and reports which tasks entered and left the map. */
    method ReplaceTasks(sid: SessionId, ts: seq<TaskId>) returns (ok: bool, added: seq<TaskId>, removed: seq<TaskId>)
      requires Inverse(View())
      modifies this
      ensures ok == (sid in old(sessions)) && View() == Replace(old(View()), sid, ts) && Inverse(View())
      ensures forall t :: t in added <==> t in tasks && t !in old(tasks)
      ensures forall t :: t in removed <==> t in old(tasks) && t !in tasks
    {
      added, removed := [], [];
      if sid !in sessions {
        return false, added, removed;
      }
      ReplaceKeepsInverse(View(), sid, ts);
      var e := sessions[sid];
      var v := values[e.val].session;
      added := NotMapped(ts);
      var removedOk := RemoveEntry(sid);
      var addedOk := AddEntry(sid, v, ts);
      removed := NotMapped(e.linked);
      ok := true;
      forall t ensures t in added <==> t in tasks && t !in old(tasks) {
        EntersExactly(old(View()), sid, ts, t);
      }
      forall t ensures t in removed <==> t in old(tasks) && t !in tasks {
        LeavesExactly(old(View()), sid, ts, t);
      }
    }

    /** A dead task at position i of the session's list: both sides are edited. */
    method DropTask(sid: SessionId, i: nat, ghost before: map<SessionId, Entry>)
      requires sid in sessions && i < |sessions[sid].linked| && sessions == before[sid := sessions[sid]]
      modifies this`sessions, this`tasks
      ensures var e := old(sessions)[sid];
              && sessions == before[sid := Entry(e.val, e.linked[..i] + e.linked[i + 1..])]
              && tasks == Pull(old(tasks), e.linked[i], e.val)
    {
      var e := sessions[sid];
      var _ := EraseRef(e.linked[i], e.val);
      sessions := sessions[sid := Entry(e.val, e.linked[..i] + e.linked[i + 1..])];
      SetAgain(before, sid, e, sessions[sid]);
    }

    /** The loop of applyUclampLocked: dead answers the scheduling calls in turn. */
    method DropDeadTasks(sid: SessionId, dead: seq<bool>)
      modifies this
      ensures View() == Sweep(old(View()), sid, dead)
    {
      if sid !in sessions {
        return;
      }
      var e := sessions[sid];
      var i, calls := 0, 0;
      NothingSwept(old(tasks), e.linked, dead, e.val);
      SetAgain(sessions, sid, e, e);
      while i < |sessions[sid].linked|
        invariant sid in sessions && 0 <= calls <= |e.linked|
        invariant i == |Kept(e.linked[..calls], dead)|
        invariant sessions == old(sessions)[sid := Entry(e.val, Remaining(e.linked, dead, calls))]
        invariant tasks == Swept(old(tasks), e.linked[..calls], dead, e.val)
        invariant values == old(values) && next == old(next)
        decreases |sessions[sid].linked| - i
      {
        OneCall(old(tasks), e.linked, dead, e.val, calls);
        if IsDead(dead, calls) {
          DropTask(sid, i, old(sessions));
        } else {
          i := i + 1;
        }
        calls := calls + 1;
      }
      AllSwept(e.linked, dead, calls);
    }
  }

  lemma {:induction false} SetAgain(sessions: map<SessionId, Entry>, sid: SessionId, a: Entry, b: Entry)
    ensures sessions[sid := a][sid := b] == sessions[sid := b]
    ensures sid in sessions && sessions[sid] == b ==> sessions[sid := b] == sessions
  {
  }

  /** The session's list after k calls. */
  function Remaining(linked: seq<TaskId>, dead: seq<bool>, k: nat): seq<TaskId>
    requires k <= |linked|
  {
    Kept(linked[..k], dead) + linked[k..]
  }

  lemma {:induction false} NothingSwept(tasks: Tasks, linked: seq<TaskId>, dead: seq<bool>, r: Ref)
    ensures Remaining(linked, dead, 0) == linked && Swept(tasks, linked[..0], dead, r) == tasks
    ensures Kept(linked[..0], dead) == []
  {
    assert linked[..0] == [];
  }

  lemma {:induction false} AllSwept(linked: seq<TaskId>, dead: seq<bool>, k: nat)
    requires k <= |linked| && |Remaining(linked, dead, k)| <= |Kept(linked[..k], dead)|
    ensures k == |linked| && linked[..k] == linked && Remaining(linked, dead, k) == Kept(linked, dead)
  {
    assert linked[..k] == linked;
  }

  lemma {:induction false} OneCall(tasks: Tasks, linked: seq<TaskId>, dead: seq<bool>, r: Ref, k: nat)
    requires k < |linked|
    ensures var list, i := Remaining(linked, dead, k), |Kept(linked[..k], dead)|;
            && i < |list| && list[i] == linked[k]
            && (IsDead(dead, k) ==> Remaining(linked, dead, k + 1) == list[..i] + list[i + 1..])
            && (!IsDead(dead, k) ==> Remaining(linked, dead, k + 1) == list)
    ensures |Kept(linked[..k + 1], dead)| == |Kept(linked[..k], dead)| + if IsDead(dead, k) then 0 else 1
    ensures Swept(tasks, linked[..k + 1], dead, r) ==
            if IsDead(dead, k) then Pull(Swept(tasks, linked[..k], dead, r), linked[k], r) else Swept(tasks, linked[..k], dead, r)
  {
    assert linked[..k + 1][..k] == linked[..k];
  }

  lemma {:induction false} EraseFirstAt(s: seq<int>, x: int, i: nat)
    requires i < |s| && s[i] == x && x !in s[..i]
    ensures EraseFirst(s, x) == s[..i] + s[i + 1..]
  {
    if i > 0 {
      assert s[0] == s[..i][0] && s[1..][..i - 1] == s[..i][1..];
      EraseFirstAt(s[1..], x, i - 1);
    }
  }
}
