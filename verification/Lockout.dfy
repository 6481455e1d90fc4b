/**
 Fingerprint lockout (biometrics/fingerprint/aidl/LockoutTracker.cpp and the lockout part of
 Session.cpp): failed attempts lead to a timed and then to a permanent lockout, and a detached timer
 ends the timed one unless it was told not to.
 */
module Lockout {
  const TIMED_THRESHOLD: int := 5
  const PERMANENT_THRESHOLD: int := 20

  datatype Mode = NONE | TIMED | PERMANENT

  datatype Callback = Succeeded | AttemptFailed | LockoutTimed | LockoutPermanent | LockoutCleared

  /** start: when the timed lockout began, 0 for none; timers: the detached timers still sleeping. */
  datatype State = State(failed: nat, mode: Mode, start: int, timerStarted: bool, timerAborted: bool, timers: nat)

  const Fresh := State(0, NONE, 0, false, false, 0)

  // ---------------------------------------------------------------- the tracker

  function Reset(s: State, clearAttempts: bool): State {
    s.(failed := if clearAttempts then 0 else s.failed, start := 0, mode := NONE)
  }

  function AddFailure(s: State, now: int): State {
    var n := s.failed + 1;
    if n >= PERMANENT_THRESHOLD then s.(failed := n, mode := PERMANENT)
    else if n >= TIMED_THRESHOLD && s.mode == NONE then s.(failed := n, mode := TIMED, start := now)
    else s.(failed := n)
  }

  /** getMode, which ends a timed lockout that has run its time. */
  function Refresh(s: State, elapsed: bool): State {
    if s.mode == TIMED && elapsed then s.(mode := NONE, start := 0) else s
  }

  // ---------------------------------------------------------------- the session

  function Check(s: State, elapsed: bool): (State, seq<Callback>) {
    var r := Refresh(s, elapsed);
    match r.mode
    case PERMANENT => (r.(timerAborted := true), [LockoutPermanent])
    case TIMED => (if r.timerStarted then r else r.(timerStarted := true, timers := r.timers + 1), [LockoutTimed])
    case NONE => (r, [])
  }

  datatype Step =
    | Success
    | Failure(now: int, elapsed: bool)
    | Authenticate(elapsed: bool)
    | ResetLockout
    | TimerExpired

  predicate Enabled(s: State, step: Step) {
    step.TimerExpired? ==> s.timers > 0
  }

  function Next(s: State, step: Step): (State, seq<Callback>)
    requires Enabled(s, step)
  {
    match step
    case Success => (Reset(s, true), [Succeeded])
    case Failure(now, elapsed) =>
      var (r, cs) := Check(AddFailure(s, now), elapsed);
      (r, [AttemptFailed] + cs)
    case Authenticate(elapsed) => Check(s, elapsed)
    case ResetLockout =>
      var r := Reset(s, true);
      (if r.timerStarted then r.(timerAborted := true) else r, [LockoutCleared])
    case TimerExpired =>
      var r := if s.timerAborted then s else Reset(s, false);
      (r.(timerStarted := false, timerAborted := false, timers := s.timers - 1), if s.timerAborted then [] else [LockoutCleared])
  }

  // ---------------------------------------------------------------- the invariant

  ghost predicate Inv(s: State) {
    && (s.mode == PERMANENT <==> s.failed >= PERMANENT_THRESHOLD)
    && (s.mode == TIMED ==> s.failed >= TIMED_THRESHOLD)
    && (s.mode == PERMANENT && s.timerStarted ==> s.timerAborted)
    && s.timers == (if s.timerStarted then 1 else 0)
  }

  lemma {:induction false} StepKeeps(s: State, step: Step)
    requires Inv(s) && Enabled(s, step)
    ensures Inv(Next(s, step).0)
  {
  }

  predicate Runs(s: State, steps: seq<Step>)
    decreases |steps|
  {
    steps == [] || (Enabled(s, steps[0]) && Runs(Next(s, steps[0]).0, steps[1..]))
  }

  function After(s: State, steps: seq<Step>): State
    requires Runs(s, steps)
    decreases |steps|
  {
    if steps == [] then s else After(Next(s, steps[0]).0, steps[1..])
  }

  /** In every interleaving: permanent exactly from 20 failures on, at most one timer, and one that
      still sleeps during a permanent lockout will not end it. */
  lemma {:induction false} EveryRun(s: State, steps: seq<Step>)
    requires Inv(s) && Runs(s, steps)
    ensures Inv(After(s, steps))
    decreases |steps|
  {
    if steps != [] {
      StepKeeps(s, steps[0]);
      EveryRun(Next(s, steps[0]).0, steps[1..]);
    }
  }

  /** The failures since the last success or reset. */
  function FailuresSince(steps: seq<Step>): nat {
    if steps == [] then 0
    else match steps[|steps| - 1]
      case Success => 0
      case ResetLockout => 0
      case Failure(_, _) => FailuresSince(steps[..|steps| - 1]) + 1
      case Authenticate(_) => FailuresSince(steps[..|steps| - 1])
      case TimerExpired => FailuresSince(steps[..|steps| - 1])
  }

  lemma {:induction false} SplitRun(s: State, steps: seq<Step>, last: Step)
    requires Runs(s, steps + [last])
    ensures Runs(s, steps) && Enabled(After(s, steps), last)
    ensures After(s, steps + [last]) == Next(After(s, steps), last).0
    decreases |steps|
  {
    var all := steps + [last];
    if steps == [] {
      assert all[1..] == [];
    } else {
      assert all[1..] == steps[1..] + [last] && all[0] == steps[0];
      SplitRun(Next(s, steps[0]).0, steps[1..], last);
    }
  }

  lemma {:induction false} StepCounts(s: State, step: Step)
    requires Enabled(s, step)
    ensures Next(s, step).0.failed == if step.Success? || step.ResetLockout? then 0 else if step.Failure? then s.failed + 1 else s.failed
  {
  }

  lemma {:induction false} CountExactly(steps: seq<Step>)
    requires Runs(Fresh, steps)
    ensures After(Fresh, steps).failed == FailuresSince(steps)
    decreases |steps|
  {
    if steps != [] {
      var before, last := steps[..|steps| - 1], steps[|steps| - 1];
      assert steps == before + [last];
      SplitRun(Fresh, before, last);
      CountExactly(before);
      StepCounts(After(Fresh, before), last);
    }
  }

  /** Neither the timer nor a lookup touches the count: over every run the lockout is permanent
      exactly when 20 attempts have failed since the last success or reset. */
  lemma {:induction false} PermanentExactly(steps: seq<Step>)
    requires Runs(Fresh, steps)
    ensures After(Fresh, steps).mode == PERMANENT <==> FailuresSince(steps) >= PERMANENT_THRESHOLD
  {
    CountExactly(steps);
    EveryRun(Fresh, steps);
  }

  /** Only a success or an explicit reset ends a permanent lockout. */
  lemma {:induction false} PermanentIsLeftOnlyBy(s: State, step: Step)
    requires Inv(s) && Enabled(s, step) && s.mode == PERMANENT
    ensures Next(s, step).0.mode != PERMANENT <==> step.Success? || step.ResetLockout?
  {
  }

  /** A timed lockout is reported, with a timer sleeping, at every failure or lookup that finds it. */
  lemma {:induction false} TimedHasATimer(s: State, step: Step)
    requires Inv(s) && Enabled(s, step) && (step.Failure? || step.Authenticate?)
    ensures var (r, cs) := Next(s, step);
            && (LockoutTimed in cs <==> r.mode == TIMED)
            && (LockoutPermanent in cs <==> r.mode == PERMANENT)
            && (r.mode == TIMED ==> r.timerStarted && r.timers == 1)
  {
  }

  function Fail(s: State, now: int, times: nat): State {
    if times == 0 then s else Next(Fail(s, now, times - 1), Failure(now, false)).0
  }

  lemma {:induction false} FewFailures(s: State, now: int, k: nat)
    requires s.failed == 0 && s.mode == NONE && k < TIMED_THRESHOLD
    ensures Fail(s, now, k) == s.(failed := k)
  {
    if k > 0 {
      FewFailures(s, now, k - 1);
    }
  }

  /** An abort mark can be left over with no timer to consume it, and then silences the next one:
      a timer started after such a reset expires without ending its lockout. */
  lemma {:induction false} LeftOverAbort(s: State, now: int)
    requires Inv(s) && s.mode == PERMANENT && !s.timerStarted
    ensures var cleared := Next(Next(s, Authenticate(false)).0, ResetLockout).0;
            var locked := Fail(cleared, now, TIMED_THRESHOLD);
            && locked.mode == TIMED && locked.timers == 1 && locked.timerAborted
            && Next(locked, TimerExpired).0.mode == TIMED && Next(locked, TimerExpired).1 == []
  {
    var c := Next(Next(s, Authenticate(false)).0, ResetLockout).0;
    FewFailures(c, now, 4);
    assert Fail(c, now, TIMED_THRESHOLD) == Next(Fail(c, now, 4), Failure(now, false)).0;
  }

  /** A timer ends the timed lockout it finds exactly when it was not told to abort. */
  lemma {:induction false} TimerEndsExactly(s: State)
    requires Inv(s) && s.mode == TIMED && s.timers > 0
    ensures Next(s, TimerExpired).0.mode == NONE <==> !s.timerAborted
  {
  }

  // ---------------------------------------------------------------- the left-over mark is reached

  /** The run is possible and ends there. */
  ghost predicate Reaches(s: State, steps: seq<Step>, t: State) {
    Runs(s, steps) && After(s, steps) == t
  }

  lemma {:induction false} ReachesOn(s: State, a: seq<Step>, t: State, b: seq<Step>, u: State)
    requires Reaches(s, a, t) && Reaches(t, b, u)
    ensures Reaches(s, a + b, u)
    decreases |a|
  {
    if a == [] {
      assert a + b == b;
    } else {
      ReachesOn(Next(s, a[0]).0, a[1..], t, b, u);
      assert (a + b)[0] == a[0] && (a + b)[1..] == a[1..] + b;
    }
  }

  lemma {:induction false} ReachesOne(s: State, step: Step)
    requires Enabled(s, step)
    ensures Reaches(s, [step], Next(s, step).0)
  {
    assert [step][1..] == [];
  }

  /** n failed attempts. */
  function Failures(n: nat): seq<Step> {
    if n == 0 then [] else Failures(n - 1) + [Failure(1, false)]
  }

  /** n failed attempts, each with its timer expiring before the next. */
  function Rounds(n: nat): seq<Step> {
    if n == 0 then [] else Rounds(n - 1) + [Failure(1, false), TimerExpired]
  }

  /** No lockout and no timer. */
  function Quiet(failed: nat, mark: bool): State {
    State(failed, NONE, 0, false, mark, 0)
  }

  lemma {:induction false} FewFailuresReach(s: State, n: nat)
    requires s.failed == 0 && s.mode == NONE && n < TIMED_THRESHOLD
    ensures Reaches(s, Failures(n), s.(failed := n))
  {
    if n > 0 {
      FewFailuresReach(s, n - 1);
      ReachesOne(s.(failed := n - 1), Failure(1, false));
      ReachesOn(s, Failures(n - 1), s.(failed := n - 1), [Failure(1, false)], s.(failed := n));
    }
  }

  lemma {:induction false} RoundsReach(failed: nat, n: nat)
    requires TIMED_THRESHOLD - 1 <= failed && failed + n < PERMANENT_THRESHOLD
    ensures Reaches(Quiet(failed, false), Rounds(n), Quiet(failed + n, false))
  {
    if n > 0 {
      RoundsReach(failed, n - 1);
      OneRound(failed + n - 1);
      ReachesOn(Quiet(failed, false), Rounds(n - 1), Quiet(failed + n - 1, false), [Failure(1, false), TimerExpired], Quiet(failed + n, false));
    }
  }

  lemma {:induction false} OneRound(failed: nat)
    requires TIMED_THRESHOLD - 1 <= failed && failed + 1 < PERMANENT_THRESHOLD
    ensures Reaches(Quiet(failed, false), [Failure(1, false), TimerExpired], Quiet(failed + 1, false))
  {
    var locked := State(failed + 1, TIMED, 1, true, false, 1);
    ReachesOne(Quiet(failed, false), Failure(1, false));
    ReachesOne(locked, TimerExpired);
    ReachesOn(Quiet(failed, false), [Failure(1, false)], locked, [TimerExpired], Quiet(failed + 1, false));
    assert [Failure(1, false)] + [TimerExpired] == [Failure(1, false), TimerExpired];
  }

  /** Nineteen failures whose timers have all expired, then the twentieth. */
  function PermanentRun(): seq<Step> {
    Failures(4) + Rounds(15) + [Failure(1, false)]
  }

  /** From a fresh session: a permanent lockout without a timer, with the abort mark set. */
  lemma {:induction false} PermanentWithoutTimer()
    ensures Reaches(Fresh, PermanentRun(), State(20, PERMANENT, 0, false, true, 0))
  {
    FewFailuresReach(Fresh, 4);
    RoundsReach(4, 15);
    ReachesOn(Fresh, Failures(4), Quiet(4, false), Rounds(15), Quiet(19, false));
    ReachesOne(Quiet(19, false), Failure(1, false));
    ReachesOn(Fresh, Failures(4) + Rounds(15), Quiet(19, false), [Failure(1, false)], State(20, PERMANENT, 0, false, true, 0));
  }

  /** Five failures. */
  function Locking(): seq<Step> {
    Failures(4) + [Failure(1, false)]
  }

  lemma {:induction false} LockingReaches(s: State)
    requires s.failed == 0 && s.mode == NONE
    ensures Reaches(s, Locking(), Next(s.(failed := 4), Failure(1, false)).0)
  {
    FewFailuresReach(s, 4);
    ReachesOne(s.(failed := 4), Failure(1, false));
    ReachesOn(s, Failures(4), s.(failed := 4), [Failure(1, false)], Next(s.(failed := 4), Failure(1, false)).0);
  }

  /** ... then a reset and five more failures. */
  function SilencedRun(): seq<Step> {
    PermanentRun() + [ResetLockout] + Locking()
  }

  lemma {:induction false} ResetLeavesTheMark()
    ensures Reaches(Fresh, PermanentRun() + [ResetLockout], Quiet(0, true))
  {
    PermanentWithoutTimer();
    ReachesOne(State(20, PERMANENT, 0, false, true, 0), ResetLockout);
    ReachesOn(Fresh, PermanentRun(), State(20, PERMANENT, 0, false, true, 0), [ResetLockout], Quiet(0, true));
  }

  const Silenced := State(5, TIMED, 1, true, true, 1)

  /** From a fresh session: a timed lockout whose timer expires without ending it. */
  lemma {:induction false} SilencedTimerIsReached()
    ensures Reaches(Fresh, SilencedRun(), Silenced)
    ensures Next(Silenced, TimerExpired) == (State(5, TIMED, 1, false, false, 0), [])
  {
    ResetLeavesTheMark();
    LockingReaches(Quiet(0, true));
    ReachesOn(Fresh, PermanentRun() + [ResetLockout], Quiet(0, true), Locking(), Silenced);
  }

  // ---------------------------------------------------------------- which runs leave the mark

  /** The i-th step finds a permanent lockout, or resets the lockout while a timer sleeps. */
  ghost predicate Marks(steps: seq<Step>, i: nat)
    requires i < |steps|
  {
    match steps[i]
    case Failure(_, _) => FailuresSince(steps[..i + 1]) >= PERMANENT_THRESHOLD
    case Authenticate(_) => FailuresSince(steps[..i + 1]) >= PERMANENT_THRESHOLD
    case ResetLockout => Runs(Fresh, steps[..i]) && After(Fresh, steps[..i]).timerStarted
    case Success => false
    case TimerExpired => false
  }

  /** Some step set the mark and no timer has expired since. */
  ghost predicate LeavesMark(steps: seq<Step>) {
    exists i :: 0 <= i < |steps| && Marks(steps, i) && forall j :: i < j < |steps| ==> !steps[j].TimerExpired?
  }

  lemma {:induction false} MarksOfPrefix(before: seq<Step>, last: Step)
    ensures LeavesMark(before + [last]) <==> (!last.TimerExpired? && LeavesMark(before)) || Marks(before + [last], |before|)
  {
    var steps := before + [last];
    forall i | 0 <= i < |before| ensures Marks(steps, i) <==> Marks(before, i) {
      assert steps[..i + 1] == before[..i + 1] && steps[..i] == before[..i];
    }
    if LeavesMark(before) && !last.TimerExpired? {
      var i :| 0 <= i < |before| && Marks(before, i) && forall j :: i < j < |before| ==> !before[j].TimerExpired?;
      assert Marks(steps, i);
    }
    if LeavesMark(steps) {
      var i :| 0 <= i < |steps| && Marks(steps, i) && forall j :: i < j < |steps| ==> !steps[j].TimerExpired?;
      if i < |before| {
        assert !steps[|before|].TimerExpired?;
        assert forall j :: i < j < |before| ==> before[j] == steps[j];
        assert Marks(before, i);
      }
    }
  }

  lemma {:induction false} StepMarks(s: State, step: Step)
    requires Inv(s) && Enabled(s, step)
    ensures var r := Next(s, step).0;
            r.timerAborted == match step
                              case Success => s.timerAborted
                              case Failure(_, _) => s.timerAborted || r.mode == PERMANENT
                              case Authenticate(_) => s.timerAborted || r.mode == PERMANENT
                              case ResetLockout => s.timerAborted || s.timerStarted
                              case TimerExpired => false
  {
  }

  /** Over every run: the mark is set at the end exactly when a lookup found 20 failures, or a reset
      found a sleeping timer, and no timer has expired since. */
  lemma {:induction false} AbortMarkExact(steps: seq<Step>)
    requires Runs(Fresh, steps)
    ensures After(Fresh, steps).timerAborted <==> LeavesMark(steps)
    decreases |steps|
  {
    if steps != [] {
      var before, last := steps[..|steps| - 1], steps[|steps| - 1];
      assert steps == before + [last];
      SplitRun(Fresh, before, last);
      AbortMarkExact(before);
      EveryRun(Fresh, before);
      StepMarks(After(Fresh, before), last);
      MarksOfPrefix(before, last);
      PermanentExactly(steps);
      assert steps[..|before| + 1] == steps && steps[..|before|] == before;
    }
  }

  // ---------------------------------------------------------------- whose timer ends a lockout

  lemma {:induction false} PrefixRuns(steps: seq<Step>, j: nat)
    requires Runs(Fresh, steps) && j <= |steps|
    ensures Runs(Fresh, steps[..j])
    decreases |steps|
  {
    if j == |steps| {
      assert steps[..j] == steps;
    } else {
      var n := |steps| - 1;
      assert steps == steps[..n] + [steps[n]];
      SplitRun(Fresh, steps[..n], steps[n]);
      PrefixRuns(steps[..n], j);
      assert steps[..n][..j] == steps[..j];
    }
  }

  /** The state after the first j steps. */
  ghost function At(steps: seq<Step>, j: nat): State
    requires Runs(Fresh, steps) && j <= |steps|
  {
    PrefixRuns(steps, j);
    After(Fresh, steps[..j])
  }

  lemma {:induction false} AtNext(steps: seq<Step>, j: nat)
    requires Runs(Fresh, steps) && j < |steps|
    ensures Inv(At(steps, j)) && Enabled(At(steps, j), steps[j]) && At(steps, j + 1) == Next(At(steps, j), steps[j]).0
  {
    PrefixRuns(steps, j);
    PrefixRuns(steps, j + 1);
    EveryRun(Fresh, steps[..j]);
    assert steps[..j + 1] == steps[..j] + [steps[j]];
    SplitRun(Fresh, steps[..j], steps[j]);
  }

  /** No timer expires from step i on. */
  predicate NoExpiry(steps: seq<Step>, i: nat) {
    forall j :: i <= j < |steps| ==> !steps[j].TimerExpired?
  }

  /** The timer that sleeps at the end was started by step i. */
  ghost predicate StartedAt(steps: seq<Step>, i: nat)
    requires Runs(Fresh, steps)
  {
    i < |steps| && At(steps, i).timers == 0 && At(steps, i + 1).timers == 1 && NoExpiry(steps, i)
  }

  /** The timed lockout in force at the end began with step b. */
  ghost predicate LockedSince(steps: seq<Step>, b: nat)
    requires Runs(Fresh, steps)
  {
    b < |steps| && At(steps, b).mode != TIMED && forall j :: b < j <= |steps| ==> At(steps, j).mode == TIMED
  }

  /** A sleeping timer sleeps on until it expires. */
  lemma {:induction false} SleepsOn(steps: seq<Step>, i: nat, j: nat)
    requires Runs(Fresh, steps) && i <= j <= |steps| && At(steps, i).timers == 1
    requires forall k :: i <= k < j ==> !steps[k].TimerExpired?
    ensures At(steps, j).timers == 1
    decreases j
  {
    if i < j {
      SleepsOn(steps, i, j - 1);
      AtNext(steps, j - 1);
      StepKeeps(At(steps, j - 1), steps[j - 1]);
    }
  }

  /** A timed lockout begins with a failure that leaves a timer asleep. */
  lemma {:induction false} LockoutBegins(steps: seq<Step>, b: nat)
    requires Runs(Fresh, steps) && LockedSince(steps, b)
    ensures steps[b].Failure? && At(steps, b + 1).timers == 1
  {
    AtNext(steps, b);
    StepKeeps(At(steps, b), steps[b]);
  }

  /** The first timer to expire in a timed lockout was started during it, by the very failure that
      began it, exactly when no timer was asleep then.  Otherwise it is the timer of an earlier
      lockout, and ends this one before its time unless it was told to abort. */
  lemma {:induction false} OwnTimerExactly(steps: seq<Step>, b: nat, i: nat)
    requires Runs(Fresh, steps) && LockedSince(steps, b) && NoExpiry(steps, b) && StartedAt(steps, i)
    ensures i >= b <==> At(steps, b).timers == 0
    ensures i >= b ==> i == b
    ensures Enabled(At(steps, |steps|), TimerExpired)
    ensures Next(At(steps, |steps|), TimerExpired).0.mode == NONE <==> !At(steps, |steps|).timerAborted
  {
    LockoutBegins(steps, b);
    if i < b {
      SleepsOn(steps, i + 1, b);
    } else if i > b {
      SleepsOn(steps, b + 1, i);
    }
    SleepsOn(steps, b + 1, |steps|);
  }

  /** Between the two lockouts: none in force, the first one's timer asleep. */
  const Between := State(0, NONE, 0, true, false, 1)

  const SecondLock := State(5, TIMED, 1, true, false, 1)

  lemma {:induction false} SuccessLeavesTheTimer()
    ensures Reaches(Fresh, Locking() + [Success], Between)
  {
    LockingReaches(Fresh);
    ReachesOne(SecondLock, Success);
    ReachesOn(Fresh, Locking(), SecondLock, [Success], Between);
  }

  /** From a fresh session, with five failures, a success and five more: the second lockout begins
      while the first one's timer is the only one asleep, and that timer ends it. */
  lemma {:induction false} OldTimerEndsNewLockout()
    ensures Reaches(Fresh, Locking() + [Success], Between) && Between.timers == 1
    ensures Reaches(Fresh, Locking() + [Success] + Locking(), SecondLock)
    ensures Next(SecondLock, TimerExpired) == (State(5, NONE, 0, false, false, 0), [LockoutCleared])
  {
    SuccessLeavesTheTimer();
    LockingReaches(Between);
    ReachesOn(Fresh, Locking() + [Success], Between, Locking(), SecondLock);
  }

  // ---------------------------------------------------------------- the session's methods

  class LockoutSession {
    var failed: nat
    var mode: Mode
    var start: int
    var timerStarted: bool
    var timerAborted: bool
    ghost var timers: nat

    ghost function View(): State
      reads this
    {
      State(failed, mode, start, timerStarted, timerAborted, timers)
    }

    constructor ()
      ensures View() == Fresh && Inv(View())
    {
      failed, mode, start, timerStarted, timerAborted, timers := 0, NONE, 0, false, false, 0;
    }

    method ResetTracker(clearAttempts: bool)
      modifies this
      ensures View() == Reset(old(View()), clearAttempts)
    {
      if clearAttempts {
        failed := 0;
      }
      start := 0;
      mode := NONE;
    }

    method AddFailedAttempt(now: int)
      modifies this
      ensures View() == AddFailure(old(View()), now)
    {
      failed := failed + 1;
      if failed >= PERMANENT_THRESHOLD {
        mode := PERMANENT;
      } else if failed >= TIMED_THRESHOLD {
        if mode == NONE {
          mode := TIMED;
          start := now;
        }
      }
    }

    method CheckSensorLockout(elapsed: bool) returns (locked: bool, callbacks: seq<Callback>)
      modifies this
      ensures (View(), callbacks) == Check(old(View()), elapsed)
      ensures locked <==> mode != NONE
    {
      callbacks := [];
      if mode == TIMED && elapsed {
        mode := NONE;
        start := 0;
      }
      if mode == PERMANENT {
        callbacks := [LockoutPermanent];
        timerAborted := true;
        return true, callbacks;
      }
      if mode == TIMED {
        callbacks := [LockoutTimed];
        if !timerStarted {
          timerStarted := true;
          timers := timers + 1;
        }
        return true, callbacks;
      }
      return false, callbacks;
    }

    method OnAuthenticated(success: bool, now: int, elapsed: bool) returns (callbacks: seq<Callback>)
      requires Inv(View())
      modifies this
      ensures (View(), callbacks) == Next(old(View()), if success then Success else Failure(now, elapsed))
      ensures Inv(View())
    {
      StepKeeps(View(), if success then Success else Failure(now, elapsed));
      if success {
        callbacks := [Succeeded];
        ResetTracker(true);
      } else {
        callbacks := [AttemptFailed];
        AddFailedAttempt(now);
        var _, more := CheckSensorLockout(elapsed);
        callbacks := callbacks + more;
      }
    }

    method OnTimerExpired() returns (callbacks: seq<Callback>)
      requires Inv(View()) && timers > 0
      modifies this
      ensures (View(), callbacks) == Next(old(View()), TimerExpired) && Inv(View())
    {
      StepKeeps(View(), TimerExpired);
      callbacks := [];
      if !timerAborted {
        ResetTracker(false);
        callbacks := [LockoutCleared];
      }
      timerStarted := false;
      timerAborted := false;
      timers := timers - 1;
    }
  }
}
