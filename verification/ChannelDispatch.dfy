/**
 Draining a channel group (power-libperfmgr/aidl/ChannelGroup.cpp runChannelGroup): a scan over the
 set write bits, and per channel a loop that hands each message to its session, gathering
 neighbouring work durations of one session into a single report.
 */
module ChannelDispatch {
  type SessionId = int

  datatype WorkDuration = WorkDuration(timeStamp: int, duration: int, cpuDuration: int, gpuDuration: int, periodStart: int)

  datatype Data =
    | Hint(hint: int)
    | Target(durationNs: int)
    | Work(duration: int, cpuDuration: int, gpuDuration: int, periodStart: int)
    | Mode(mode: int, enabled: bool)
    | Unknown

  datatype Message = Message(session: SessionId, timeStamp: int, data: Data)

  datatype Call =
    | SendHint(session: SessionId, hint: int)
    | UpdateTarget(session: SessionId, durationNs: int)
    | Report(session: SessionId, durations: seq<WorkDuration>)
    | SetMode(session: SessionId, mode: int, enabled: bool)

  // ---------------------------------------------------------------- one by one

  function DurationOf(m: Message): WorkDuration
    requires m.data.Work?
  {
    WorkDuration(m.timeStamp, m.data.duration, m.data.cpuDuration, m.data.gpuDuration, m.data.periodStart)
  }

  /** What a message alone makes its session do; live holds the sessions that resolve. */
  function Alone(m: Message, live: set<SessionId>): seq<Call> {
    if m.session !in live then []
    else match m.data
      case Hint(h) => [SendHint(m.session, h)]
      case Target(t) => [UpdateTarget(m.session, t)]
      case Work(_, _, _, _) => [Report(m.session, [DurationOf(m)])]
      case Mode(x, on) => [SetMode(m.session, x, on)]
      case Unknown => []
  }

  function OneByOne(ms: seq<Message>, live: set<SessionId>, i: nat): seq<Call>
    requires i <= |ms|
    decreases |ms| - i
  {
    if i == |ms| then [] else Alone(ms[i], live) + OneByOne(ms, live, i + 1)
  }

  /** A report of many durations, as reports of one each. */
  function Singles(s: SessionId, ds: seq<WorkDuration>): seq<Call> {
    if ds == [] then [] else [Report(s, [ds[0]])] + Singles(s, ds[1..])
  }

  function Split(c: Call): seq<Call> {
    if c.Report? then Singles(c.session, c.durations) else [c]
  }

  function Flatten(calls: seq<Call>): seq<Call> {
    if calls == [] then [] else Split(calls[0]) + Flatten(calls[1..])
  }

  // ---------------------------------------------------------------- maximal runs

  /** Message i continues the work durations of message i - 1. */
  predicate Continues(ms: seq<Message>, i: nat)
    requires i < |ms|
  {
    i > 0 && ms[i - 1].data.Work? && ms[i].data.Work? && ms[i - 1].session == ms[i].session
  }

  /** The end of the run that message i belongs to. */
  function RunEnd(ms: seq<Message>, i: nat): (e: nat)
    requires i < |ms|
    ensures i < e <= |ms|
    ensures forall j :: i < j < e ==> Continues(ms, j)
    ensures e < |ms| ==> !Continues(ms, e)
    decreases |ms| - i
  {
    if i + 1 < |ms| && Continues(ms, i + 1) then RunEnd(ms, i + 1) else i + 1
  }

  function Durations(ms: seq<Message>, i: nat, e: nat): seq<WorkDuration>
    requires i <= e <= |ms| && forall j :: i <= j < e ==> ms[j].data.Work?
    decreases e - i
  {
    if i == e then [] else [DurationOf(ms[i])] + Durations(ms, i + 1, e)
  }

  /** What position i contributes: a work duration that starts its run stands for the whole of it. */
  function Contribution(ms: seq<Message>, live: set<SessionId>, i: nat): seq<Call>
    requires i < |ms|
  {
    if !ms[i].data.Work? || ms[i].session !in live then Alone(ms[i], live)
    else if Continues(ms, i) then []
    else AllWork(ms, i); [Report(ms[i].session, Durations(ms, i, RunEnd(ms, i)))]
  }

  function Expected(ms: seq<Message>, live: set<SessionId>, i: nat): seq<Call>
    requires i <= |ms|
    decreases |ms| - i
  {
    if i == |ms| then [] else Contribution(ms, live, i) + Expected(ms, live, i + 1)
  }

  lemma {:induction false} AllWork(ms: seq<Message>, i: nat)
    requires i < |ms| && ms[i].data.Work?
    ensures forall j :: i <= j < RunEnd(ms, i) ==> ms[j].data.Work? && ms[j].session == ms[i].session
    decreases |ms| - i
  {
    if i + 1 < |ms| && Continues(ms, i + 1) {
      AllWork(ms, i + 1);
    }
  }

  /** The rest of a run contributes nothing. */
  lemma {:induction false} RestOfRun(ms: seq<Message>, live: set<SessionId>, j: nat, e: nat)
    requires j <= e <= |ms|
    requires forall k :: j <= k < e ==> Continues(ms, k) && ms[k].session in live
    ensures Expected(ms, live, j) == Expected(ms, live, e)
    decreases e - j
  {
    if j < e {
      RestOfRun(ms, live, j + 1, e);
    }
  }

  lemma {:induction false} ExpectedRun(ms: seq<Message>, live: set<SessionId>, i: nat)
    requires i < |ms| && ms[i].data.Work? && ms[i].session in live && !Continues(ms, i)
    ensures forall j :: i <= j < RunEnd(ms, i) ==> ms[j].data.Work?
    ensures Expected(ms, live, i) == [Report(ms[i].session, Durations(ms, i, RunEnd(ms, i)))] + Expected(ms, live, RunEnd(ms, i))
  {
    AllWork(ms, i);
    RestOfRun(ms, live, i + 1, RunEnd(ms, i));
  }

  // ---------------------------------------------------------------- grouping changes nothing

  lemma {:induction false} Assoc(a: seq<Call>, b: seq<Call>, c: seq<Call>)
    ensures a + b + c == a + (b + c)
  {
  }

  lemma {:induction false} FlattenAppend(a: seq<Call>, b: seq<Call>)
    ensures Flatten(a + b) == Flatten(a) + Flatten(b)
  {
    if a == [] {
      assert a + b == b;
    } else {
      FlattenAppend(a[1..], b);
      assert (a + b)[1..] == a[1..] + b && (a + b)[0] == a[0];
      Assoc(Split(a[0]), Flatten(a[1..]), Flatten(b));
    }
  }

  lemma {:induction false} FlattenOne(c: Call)
    ensures Flatten([c]) == Split(c)
  {
    assert [c][1..] == [];
  }

  lemma {:induction false} SinglesOne(s: SessionId, d: WorkDuration)
    ensures Singles(s, [d]) == [Report(s, [d])]
  {
    assert [d][1..] == [];
  }

  lemma {:induction false} FlattenAlone(m: Message, live: set<SessionId>)
    ensures Flatten(Alone(m, live)) == Alone(m, live)
  {
    if Alone(m, live) != [] {
      FlattenOne(Alone(m, live)[0]);
      if m.data.Work? {
        SinglesOne(m.session, DurationOf(m));
      }
    }
  }

  lemma {:induction false} RunOneByOne(ms: seq<Message>, live: set<SessionId>, i: nat, e: nat, s: SessionId)
    requires i <= e <= |ms| && s in live
    requires forall j :: i <= j < e ==> ms[j].data.Work? && ms[j].session == s
    ensures OneByOne(ms, live, i) == Singles(s, Durations(ms, i, e)) + OneByOne(ms, live, e)
    decreases e - i
  {
    if i < e {
      RunOneByOne(ms, live, i + 1, e, s);
      var ds := Durations(ms, i, e);
      assert ds[1..] == Durations(ms, i + 1, e);
      assert OneByOne(ms, live, i) == [Report(s, [ds[0]])] + OneByOne(ms, live, i + 1);
    }
  }

  /** Where the loop may stand: not inside a run of a session that resolves. */
  predicate Boundary(ms: seq<Message>, live: set<SessionId>, i: nat) {
    i < |ms| && ms[i].session in live ==> !Continues(ms, i)
  }

  lemma {:induction false} NextBoundary(ms: seq<Message>, live: set<SessionId>, i: nat)
    requires i < |ms| && (!ms[i].data.Work? || ms[i].session !in live)
    ensures Boundary(ms, live, i + 1)
  {
  }

  /** Splitting the reports again gives exactly the one-by-one dispatch, in order. */
  lemma {:induction false} GroupingIsFaithful(ms: seq<Message>, live: set<SessionId>, i: nat)
    requires i <= |ms| && Boundary(ms, live, i)
    ensures Flatten(Expected(ms, live, i)) == OneByOne(ms, live, i)
    decreases |ms| - i
  {
    if i < |ms| {
      if ms[i].data.Work? && ms[i].session in live {
        FaithfulRun(ms, live, i);
      } else {
        NextBoundary(ms, live, i);
        GroupingIsFaithful(ms, live, i + 1);
        FlattenAppend(Alone(ms[i], live), Expected(ms, live, i + 1));
        FlattenAlone(ms[i], live);
      }
    }
  }

  lemma {:induction false} FaithfulRun(ms: seq<Message>, live: set<SessionId>, i: nat)
    requires i < |ms| && Boundary(ms, live, i) && ms[i].data.Work? && ms[i].session in live
    ensures Flatten(Expected(ms, live, i)) == OneByOne(ms, live, i)
    decreases |ms| - i, 0
  {
    var e := RunEnd(ms, i);
    AllWork(ms, i);
    ExpectedRun(ms, live, i);
    GroupingIsFaithful(ms, live, e);
    var r := Report(ms[i].session, Durations(ms, i, e));
    FlattenAppend([r], Expected(ms, live, e));
    FlattenOne(r);
    RunOneByOne(ms, live, i, e, ms[i].session);
  }

  // ---------------------------------------------------------------- the loops

  lemma {:induction false} DurationsOneMore(ms: seq<Message>, i: nat, j: nat)
    requires i <= j < |ms| && forall k :: i <= k <= j ==> ms[k].data.Work?
    ensures Durations(ms, i, j + 1) == Durations(ms, i, j) + [DurationOf(ms[j])]
    decreases j - i
  {
    if i < j {
      DurationsOneMore(ms, i + 1, j);
    } else {
      assert Durations(ms, j + 1, j + 1) == [];
    }
  }

  lemma {:induction false} RunEndUnique(ms: seq<Message>, i: nat, e: nat)
    requires i < e <= |ms| && (forall j :: i < j < e ==> Continues(ms, j)) && (e < |ms| ==> !Continues(ms, e))
    ensures RunEnd(ms, i) == e
    decreases e - i
  {
    if i + 1 < e {
      RunEndUnique(ms, i + 1, e);
    }
  }

  /** The inner loop: gathers the run that starts at message i. */
  method GatherRun(ms: seq<Message>, i: nat) returns (e: nat, durations: seq<WorkDuration>)
    requires i < |ms| && ms[i].data.Work?
    ensures e == RunEnd(ms, i)
    ensures forall j :: i <= j < e ==> ms[j].data.Work? && ms[j].session == ms[i].session
    ensures durations == Durations(ms, i, e)
  {
    e, durations := i, [];
    while e < |ms| && ms[e].data.Work? && ms[e].session == ms[i].session
      invariant i <= e <= |ms|
      invariant forall j :: i <= j < e ==> ms[j].data.Work? && ms[j].session == ms[i].session
      invariant durations == Durations(ms, i, e)
    {
      DurationsOneMore(ms, i, e);
      durations := durations + [DurationOf(ms[e])];
      e := e + 1;
    }
    RunEndUnique(ms, i, e);
  }

  /** The message loop: the calls made, which are one per message or maximal run, and amount to the
      one-by-one dispatch of every message whose session resolves. */
  method Dispatch(ms: seq<Message>, live: set<SessionId>) returns (calls: seq<Call>)
    ensures calls == Expected(ms, live, 0)
    ensures Flatten(calls) == OneByOne(ms, live, 0)
  {
    calls := [];
    var i := 0;
    while i < |ms|
      invariant 0 <= i <= |ms| && Boundary(ms, live, i)
      invariant calls + Expected(ms, live, i) == Expected(ms, live, 0)
    {
      var made, next := Handle(ms, live, i);
      Assoc(calls, made, Expected(ms, live, next));
      calls := calls + made;
      i := next;
    }
    GroupingIsFaithful(ms, live, 0);
  }

  /** One round of the message loop. */
  method Handle(ms: seq<Message>, live: set<SessionId>, i: nat) returns (made: seq<Call>, next: nat)
    requires i < |ms| && Boundary(ms, live, i)
    ensures i < next <= |ms| && Boundary(ms, live, next)
    ensures Expected(ms, live, i) == made + Expected(ms, live, next)
  {
    made, next := [], i;
    var m := ms[i];
    if m.session in live {
      match m.data
      case Hint(h) => made := [SendHint(m.session, h)];
      case Target(t) => made := [UpdateTarget(m.session, t)];
      case Work(_, _, _, _) =>
        var e, durations := GatherRun(ms, i);
        ExpectedRun(ms, live, i);
        if durations != [] {
          made := [Report(m.session, durations)];
          // back by one, so that the step below does not skip the message after the run
          next := e - 1;
        }
      case Mode(x, on) => made := [SetMode(m.session, x, on)];
      case Unknown =>
    }
    next := next + 1;
  }
}
