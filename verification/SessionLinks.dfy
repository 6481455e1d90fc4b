/**
 The two-way map between hint sessions and tasks (power-libperfmgr/aidl/SessionTaskMap.cpp): each
 session lists its tasks, each task lists references to the values of its sessions, and both lists
 may hold duplicates.  A value is shared by reference, and replacing a session's tasks gives it a
 fresh value object, so references are modelled explicitly.
 */
module SessionLinks {
  import opened TaskUclamp

  type SessionId = int
  type TaskId = int
  type Ref = int

  datatype Entry = Entry(val: Ref, linked: seq<TaskId>)

  datatype Value = Value(sessionId: SessionId, session: Session)

  type Tasks = map<TaskId, seq<Ref>>

  /** values: the value objects in use; next: a reference never used so far. */
  datatype TaskMap = TaskMap(sessions: map<SessionId, Entry>, tasks: Tasks, values: map<Ref, Value>, next: Ref)

  const NoSessions := TaskMap(map[], map[], map[], 0)

  // ---------------------------------------------------------------- one task's list

  function Count(x: int, s: seq<int>): nat {
    if s == [] then 0 else Count(x, s[..|s| - 1]) + (if s[|s| - 1] == x then 1 else 0)
  }

  /** Without the first occurrence of x. */
  function EraseFirst(s: seq<int>, x: int): seq<int> {
    if s == [] then [] else if s[0] == x then s[1..] else [s[0]] + EraseFirst(s[1..], x)
  }

  /** Without all occurrences of x. */
  function Without(s: seq<int>, x: int): seq<int> {
    if s == [] then []
    else
      var rest := Without(s[..|s| - 1], x);
      if s[|s| - 1] == x then rest else rest + [s[|s| - 1]]
  }

  lemma {:induction false} CountAppend(x: int, a: seq<int>, b: seq<int>)
    ensures Count(x, a + b) == Count(x, a) + Count(x, b)
  {
    if b == [] {
      assert a + b == a;
    } else {
      CountAppend(x, a, b[..|b| - 1]);
      assert (a + b)[..|a + b| - 1] == a + b[..|b| - 1];
    }
  }

  lemma {:induction false} CountFirst(x: int, s: seq<int>)
    requires s != []
    ensures Count(x, s) == (if s[0] == x then 1 else 0) + Count(x, s[1..])
  {
    CountAppend(x, [s[0]], s[1..]);
    assert [s[0]] + s[1..] == s;
    assert [s[0]][..0] == [];
  }

  lemma {:induction false} CountPositive(x: int, s: seq<int>)
    ensures Count(x, s) > 0 <==> x in s
  {
    if s != [] {
      CountPositive(x, s[..|s| - 1]);
    }
  }

  lemma {:induction false} EraseFirstCounts(s: seq<int>, x: int, y: int)
    ensures Count(y, EraseFirst(s, x)) == if x == y && x in s then Count(y, s) - 1 else Count(y, s)
  {
    CountPositive(x, s);
    if s != [] {
      CountFirst(y, s);
      if s[0] != x {
        EraseFirstCounts(s[1..], x, y);
        CountFirst(y, [s[0]] + EraseFirst(s[1..], x));
        assert ([s[0]] + EraseFirst(s[1..], x))[1..] == EraseFirst(s[1..], x);
      }
    }
  }

  lemma {:induction false} WithoutAppend(a: seq<int>, b: seq<int>, x: int)
    ensures Without(a + b, x) == Without(a, x) + Without(b, x)
  {
    if b == [] {
      assert a + b == a;
    } else {
      WithoutAppend(a, b[..|b| - 1], x);
      assert (a + b)[..|a + b| - 1] == a + b[..|b| - 1];
    }
  }

  lemma {:induction false} WithoutOne(y: int, x: int)
    ensures Without([y], x) == if y == x then [] else [y]
  {
    assert [y][..0] == [];
  }

  lemma {:induction false} EraseFirstKeepsOthers(s: seq<int>, x: int)
    ensures Without(EraseFirst(s, x), x) == Without(s, x)
  {
    if s != [] {
      WithoutAppend([s[0]], s[1..], x);
      assert [s[0]] + s[1..] == s;
      WithoutOne(s[0], x);
      if s[0] != x {
        EraseFirstKeepsOthers(s[1..], x);
        WithoutAppend([s[0]], EraseFirst(s[1..], x), x);
      }
    }
  }

  lemma {:induction false} WithoutAbsent(s: seq<int>, x: int)
    requires x !in s
    ensures Without(s, x) == s
  {
    if s != [] {
      WithoutAbsent(s[..|s| - 1], x);
      assert s[..|s| - 1] + [s[|s| - 1]] == s;
    }
  }

  // ---------------------------------------------------------------- lists by task

  function ListOf(tasks: Tasks, t: TaskId): seq<Ref> {
    if t in tasks then tasks[t] else []
  }

  function Num(tasks: Tasks, t: TaskId, r: Ref): nat {
    Count(r, ListOf(tasks, t))
  }

  function Push(tasks: Tasks, t: TaskId, r: Ref): Tasks {
    tasks[t := ListOf(tasks, t) + [r]]
  }

  function PushAll(tasks: Tasks, ts: seq<TaskId>, r: Ref): Tasks {
    if ts == [] then tasks else Push(PushAll(tasks, ts[..|ts| - 1], r), ts[|ts| - 1], r)
  }

  /** Erases one reference, and a task's entry with its last one. */
  function Pull(tasks: Tasks, t: TaskId, r: Ref): Tasks {
    if t !in tasks || r !in tasks[t] then tasks
    else if EraseFirst(tasks[t], r) == [] then tasks - {t}
    else tasks[t := EraseFirst(tasks[t], r)]
  }

  function PullAll(tasks: Tasks, ts: seq<TaskId>, r: Ref): Tasks {
    if ts == [] then tasks else Pull(PullAll(tasks, ts[..|ts| - 1], r), ts[|ts| - 1], r)
  }

  ghost predicate NoEmptyLists(tasks: Tasks) {
    forall t :: t in tasks ==> tasks[t] != []
  }

  lemma {:induction false} PushNum(tasks: Tasks, t: TaskId, r: Ref, t': TaskId, r': Ref)
    ensures Num(Push(tasks, t, r), t', r') == Num(tasks, t', r') + if t == t' && r == r' then 1 else 0
  {
    assert (ListOf(tasks, t) + [r])[..|ListOf(tasks, t)|] == ListOf(tasks, t);
  }

  lemma {:induction false} PullNum(tasks: Tasks, t: TaskId, r: Ref, t': TaskId, r': Ref)
    ensures Num(Pull(tasks, t, r), t', r') ==
            if t == t' && r == r' && Num(tasks, t, r) > 0 then Num(tasks, t', r') - 1 else Num(tasks, t', r')
  {
    CountPositive(r, ListOf(tasks, t));
    if t in tasks {
      EraseFirstCounts(tasks[t], r, r');
    }
  }

  lemma {:induction false} PushAllNum(tasks: Tasks, ts: seq<TaskId>, r: Ref, t': TaskId, r': Ref)
    ensures Num(PushAll(tasks, ts, r), t', r') == Num(tasks, t', r') + if r == r' then Count(t', ts) else 0
  {
    if ts != [] {
      PushAllNum(tasks, ts[..|ts| - 1], r, t', r');
      PushNum(PushAll(tasks, ts[..|ts| - 1], r), ts[|ts| - 1], r, t', r');
    }
  }

  function Minus(a: nat, b: nat): nat {
    if b <= a then a - b else 0
  }

  lemma {:induction false} PullAllNum(tasks: Tasks, ts: seq<TaskId>, r: Ref, t': TaskId, r': Ref)
    ensures Num(PullAll(tasks, ts, r), t', r') == if r == r' then Minus(Num(tasks, t', r'), Count(t', ts)) else Num(tasks, t', r')
  {
    if ts != [] {
      PullAllNum(tasks, ts[..|ts| - 1], r, t', r');
      PullNum(PullAll(tasks, ts[..|ts| - 1], r), ts[|ts| - 1], r, t', r');
    }
  }

  lemma {:induction false} PushAllNoEmpty(tasks: Tasks, ts: seq<TaskId>, r: Ref)
    requires NoEmptyLists(tasks)
    ensures NoEmptyLists(PushAll(tasks, ts, r))
  {
    if ts != [] {
      PushAllNoEmpty(tasks, ts[..|ts| - 1], r);
    }
  }

  lemma {:induction false} PullAllNoEmpty(tasks: Tasks, ts: seq<TaskId>, r: Ref)
    requires NoEmptyLists(tasks)
    ensures NoEmptyLists(PullAll(tasks, ts, r))
  {
    if ts != [] {
      PullAllNoEmpty(tasks, ts[..|ts| - 1], r);
    }
  }

  /** Neither side of an update touches the other references of any list, or their order. */
  lemma {:induction false} PullKeepsOthers(tasks: Tasks, t: TaskId, r: Ref, t': TaskId)
    ensures Without(ListOf(Pull(tasks, t, r), t'), r) == Without(ListOf(tasks, t'), r)
  {
    EraseFirstKeepsOthers(ListOf(tasks, t), r);
  }

  lemma {:induction false} PullAllKeepsOthers(tasks: Tasks, ts: seq<TaskId>, r: Ref, t': TaskId)
    ensures Without(ListOf(PullAll(tasks, ts, r), t'), r) == Without(ListOf(tasks, t'), r)
  {
    if ts != [] {
      PullAllKeepsOthers(tasks, ts[..|ts| - 1], r, t');
      PullKeepsOthers(PullAll(tasks, ts[..|ts| - 1], r), ts[|ts| - 1], r, t');
    }
  }

  lemma {:induction false} PushAllKeepsOthers(tasks: Tasks, ts: seq<TaskId>, r: Ref, t': TaskId)
    ensures Without(ListOf(PushAll(tasks, ts, r), t'), r) == Without(ListOf(tasks, t'), r)
  {
    if ts != [] {
      var before := PushAll(tasks, ts[..|ts| - 1], r);
      PushAllKeepsOthers(tasks, ts[..|ts| - 1], r, t');
      WithoutAppend(ListOf(before, t'), [r], r);
      WithoutOne(r, r);
    }
  }

  /** A task is in the map exactly when some reference is in its list. */
  lemma {:induction false} InTasks(tasks: Tasks, t: TaskId) returns (r: Ref)
    requires NoEmptyLists(tasks) && t in tasks
    ensures Num(tasks, t, r) > 0
  {
    r := tasks[t][0];
    CountPositive(r, tasks[t]);
  }

  // ---------------------------------------------------------------- the operations

  function Add(m: TaskMap, sid: SessionId, v: Session, ts: seq<TaskId>): TaskMap {
    if sid in m.sessions then m
    else TaskMap(m.sessions[sid := Entry(m.next, ts)], PushAll(m.tasks, ts, m.next),
                 m.values[m.next := Value(sid, v)], m.next + 1)
  }

  function Remove(m: TaskMap, sid: SessionId): TaskMap {
    if sid !in m.sessions then m
    else
      var e := m.sessions[sid];
      m.(sessions := m.sessions - {sid}, tasks := PullAll(m.tasks, e.linked, e.val), values := m.values - {e.val})
  }

  function Replace(m: TaskMap, sid: SessionId, ts: seq<TaskId>): TaskMap
    requires sid in m.sessions ==> m.sessions[sid].val in m.values
  {
    if sid !in m.sessions then m
    else Add(Remove(m, sid), sid, m.values[m.sessions[sid].val].session, ts)
  }

  /** A change of a session's value fields, such as a vote or the active flag. */
  function Update(m: TaskMap, sid: SessionId, v: Session): TaskMap {
    if sid !in m.sessions then m
    else m.(values := m.values[m.sessions[sid].val := Value(sid, v)])
  }

  /** Whether the k-th scheduling call of a loop finds its thread dead. */
  predicate IsDead(dead: seq<bool>, k: nat) {
    k < |dead| && dead[k]
  }

  /** The loop that applies a session's uclamp drops the dead tasks from the session's list ... */
  function Kept(linked: seq<TaskId>, dead: seq<bool>): seq<TaskId> {
    if linked == [] then []
    else
      var n := |linked| - 1;
      if IsDead(dead, n) then Kept(linked[..n], dead) else Kept(linked[..n], dead) + [linked[n]]
  }

  /** ... and the session from each dead task's list. */
  function Swept(tasks: Tasks, linked: seq<TaskId>, dead: seq<bool>, r: Ref): Tasks {
    if linked == [] then tasks
    else
      var n := |linked| - 1;
      if IsDead(dead, n) then Pull(Swept(tasks, linked[..n], dead, r), linked[n], r) else Swept(tasks, linked[..n], dead, r)
  }

  function Sweep(m: TaskMap, sid: SessionId, dead: seq<bool>): TaskMap {
    if sid !in m.sessions then m
    else
      var e := m.sessions[sid];
      m.(sessions := m.sessions[sid := e.(linked := Kept(e.linked, dead))], tasks := Swept(m.tasks, e.linked, dead, e.val))
  }

  // ---------------------------------------------------------------- the invariant

  ghost predicate Linked(m: TaskMap, sid: SessionId, t: TaskId)
    requires sid in m.sessions
  {
    Count(t, m.sessions[sid].linked) == Num(m.tasks, t, m.sessions[sid].val)
  }

  /** Sessions own their values, one each. */
  ghost predicate Owned(m: TaskMap) {
    && (forall sid :: sid in m.sessions ==>
          m.sessions[sid].val in m.values && m.values[m.sessions[sid].val].sessionId == sid)
    && (forall r :: r in m.values ==>
          r < m.next && m.values[r].sessionId in m.sessions && m.sessions[m.values[r].sessionId].val == r)
  }

  ghost predicate Known(m: TaskMap, t: TaskId, r: Ref) {
    Num(m.tasks, t, r) > 0 ==> r in m.values
  }

  /** The two maps are inverse to each other as multisets, and no task has an empty list. */
  ghost predicate Inverse(m: TaskMap) {
    && Owned(m)
    && (forall sid, t :: sid in m.sessions ==> Linked(m, sid, t))
    && (forall t, r :: Known(m, t, r))
    && NoEmptyLists(m.tasks)
  }

  lemma {:induction false} AddKeepsInverse(m: TaskMap, sid: SessionId, v: Session, ts: seq<TaskId>)
    requires Inverse(m)
    ensures Inverse(Add(m, sid, v, ts))
  {
    if sid !in m.sessions {
      var m' := Add(m, sid, v, ts);
      PushAllNoEmpty(m.tasks, ts, m.next);
      forall s, t | s in m'.sessions ensures Linked(m', s, t) {
        assert Known(m, t, m.next);
        PushAllNum(m.tasks, ts, m.next, t, m'.sessions[s].val);
        if s != sid {
          assert Linked(m, s, t);
        }
      }
      forall t, r ensures Known(m', t, r) {
        assert Known(m, t, r);
        PushAllNum(m.tasks, ts, m.next, t, r);
      }
    }
  }

  /** Taking references of one session away while its task list loses the same tasks. */
  lemma {:induction false} RemoveKeepsInverse(m: TaskMap, sid: SessionId)
    requires Inverse(m)
    ensures Inverse(Remove(m, sid))
  {
    if sid in m.sessions {
      var m' := Remove(m, sid);
      var e := m.sessions[sid];
      PullAllNoEmpty(m.tasks, e.linked, e.val);
      forall s, t | s in m'.sessions ensures Linked(m', s, t) {
        assert Linked(m, s, t);
        PullAllNum(m.tasks, e.linked, e.val, t, m'.sessions[s].val);
      }
      forall t, r ensures Known(m', t, r) {
        assert Known(m, t, r) && Linked(m, sid, t);
        PullAllNum(m.tasks, e.linked, e.val, t, r);
      }
    }
  }

  lemma {:induction false} ReplaceKeepsInverse(m: TaskMap, sid: SessionId, ts: seq<TaskId>)
    requires Inverse(m)
    ensures Inverse(Replace(m, sid, ts))
  {
    if sid in m.sessions {
      RemoveKeepsInverse(m, sid);
      AddKeepsInverse(Remove(m, sid), sid, m.values[m.sessions[sid].val].session, ts);
    }
  }

  lemma {:induction false} UpdateKeepsInverse(m: TaskMap, sid: SessionId, v: Session)
    requires Inverse(m)
    ensures Inverse(Update(m, sid, v))
  {
    var m' := Update(m, sid, v);
    forall s, t | s in m'.sessions ensures Linked(m', s, t) {
      assert Linked(m, s, t);
    }
    forall t, r ensures Known(m', t, r) {
      assert Known(m, t, r);
    }
  }

  /** After k calls: the references left are those of tasks kept and of tasks not yet looked at. */
  lemma {:induction false} SweptNum(tasks: Tasks, linked: seq<TaskId>, dead: seq<bool>, r: Ref, t: TaskId, r': Ref)
    requires Count(t, linked) <= Num(tasks, t, r)
    ensures Num(Swept(tasks, linked, dead, r), t, r') ==
            if r == r' then Num(tasks, t, r) - Count(t, linked) + Count(t, Kept(linked, dead)) else Num(tasks, t, r')
    ensures Count(t, Kept(linked, dead)) <= Count(t, linked)
  {
    if linked != [] {
      var n := |linked| - 1;
      SweptNum(tasks, linked[..n], dead, r, t, r');
      PullNum(Swept(tasks, linked[..n], dead, r), linked[n], r, t, r');
      if !IsDead(dead, n) {
        var rest := Kept(linked[..n], dead);
        assert (rest + [linked[n]])[..|rest|] == rest;
      }
    }
  }

  lemma {:induction false} SweptNoEmpty(tasks: Tasks, linked: seq<TaskId>, dead: seq<bool>, r: Ref)
    requires NoEmptyLists(tasks)
    ensures NoEmptyLists(Swept(tasks, linked, dead, r))
  {
    if linked != [] {
      SweptNoEmpty(tasks, linked[..|linked| - 1], dead, r);
    }
  }

  lemma {:induction false} SweepKeepsInverse(m: TaskMap, sid: SessionId, dead: seq<bool>)
    requires Inverse(m)
    ensures Inverse(Sweep(m, sid, dead))
  {
    if sid in m.sessions {
      var m' := Sweep(m, sid, dead);
      var e := m.sessions[sid];
      SweptNoEmpty(m.tasks, e.linked, dead, e.val);
      forall s, t | s in m'.sessions ensures Linked(m', s, t) {
        assert Linked(m, s, t) && Linked(m, sid, t);
        SweptNum(m.tasks, e.linked, dead, e.val, t, m'.sessions[s].val);
      }
      forall t, r ensures Known(m', t, r) {
        assert Known(m, t, r) && Linked(m, sid, t);
        SweptNum(m.tasks, e.linked, dead, e.val, t, r);
      }
    }
  }
}
