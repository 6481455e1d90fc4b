/**
 The interaction boost (power-libperfmgr/aidl/InteractionHandler.cpp): callers acquire a boost, a
 helper thread waits for the display to go idle and releases it, and an event descriptor wakes the
 thread early when the boost is extended.  Every locked section is a step of one state machine.
 */
module InteractionHandler {
  import opened Basics

  datatype Mode = UNINITIALIZED | IDLE | INTERACTION | WAITING

  /** Where the helper thread is: before its wait for work, waiting for idle, or finished. */
  datatype Thread = NotStarted | Looping | WaitingForIdle | Finished

  datatype PerfCall = PerfLock | PerfRel

  datatype Timespec = Timespec(sec: int, nsec: int) {
    predicate Valid() {
      0 <= nsec < 1_000_000_000
    }

    function Nanos(): int {
      sec * 1_000_000_000 + nsec
    }
  }

  /** supported: the display reports idleness; the rest in milliseconds. */
  datatype Config = Config(supported: bool, minMs: int, maxMs: int, offsetMs: int)

  /** eventFd: the event descriptor's counter; calls: the perf lock calls made so far. */
  datatype Handler = Handler(mode: Mode, thread: Thread, eventFd: nat, durationMs: int, last: Timespec, calls: seq<PerfCall>)

  datatype Step =
    | Init(fdsOk: bool)
    | Acquire(duration: int, now: Timespec)
    | Wake
    | Release
    | Exit

  const New := Handler(UNINITIALIZED, NotStarted, 0, 0, Timespec(0, 0), [])

  // ---------------------------------------------------------------- the arithmetic of Acquire

  predicate GoodConfig(cfg: Config) {
    0 <= cfg.minMs <= cfg.maxMs < 0x8000_0000 && 0 <= cfg.offsetMs < 0x8000_0000
  }

  /** 32-bit unsigned wrap-around. */
  function Unsigned(x: int): int {
    if x < 0 then x + 0x1_0000_0000 else x
  }

  /** The sum and both comparisons are unsigned. */
  function FinalDuration(cfg: Config, duration: int): int {
    var input := Unsigned(duration + cfg.offsetMs);
    if input > cfg.maxMs then cfg.maxMs else if input > cfg.minMs then input else cfg.minMs
  }

  function ElapsedMs(start: Timespec, end: Timespec): int {
    (end.sec - start.sec) * 1000 + TruncDiv(end.nsec - start.nsec, 1_000_000)
  }

  /** The duration is the offset request clamped to the configured bounds, exactly for requests that
      the offset makes non-negative; any other wraps round to the longest boost. */
  lemma {:induction false} FinalDurationExact(cfg: Config, duration: int)
    requires GoodConfig(cfg) && Int32(duration)
    ensures cfg.minMs <= FinalDuration(cfg, duration) <= cfg.maxMs
    ensures duration + cfg.offsetMs >= 0 ==>
              FinalDuration(cfg, duration) == (if duration + cfg.offsetMs < cfg.minMs then cfg.minMs
                                               else if duration + cfg.offsetMs > cfg.maxMs then cfg.maxMs
                                               else duration + cfg.offsetMs)
    ensures duration + cfg.offsetMs < 0 ==> FinalDuration(cfg, duration) == cfg.maxMs
  {
  }

  /** The whole milliseconds and the remainder are truncated apart, so the result is off by less than one. */
  lemma {:induction false} ElapsedWithinOneMs(start: Timespec, end: Timespec)
    requires start.Valid() && end.Valid()
    ensures (ElapsedMs(start, end) - 1) * 1_000_000 < end.Nanos() - start.Nanos() < (ElapsedMs(start, end) + 1) * 1_000_000
    ensures start.Nanos() <= end.Nanos() ==> 0 <= ElapsedMs(start, end)
  {
    var d := end.nsec - start.nsec;
    if d >= 0 {
      QuotientIsDivision(d, 1_000_000);
    } else {
      QuotientIsDivision(-d, 1_000_000);
    }
  }

  // ---------------------------------------------------------------- the steps

  /** The last hint covers this one, as far as whole milliseconds tell. */
  predicate Covered(h: Handler, final: int, now: Timespec) {
    h.mode != IDLE && final <= h.durationMs && ElapsedMs(h.last, now) <= h.durationMs - final
  }

  function DoAcquire(cfg: Config, h: Handler, duration: int, now: Timespec): Handler {
    var final := FinalDuration(cfg, duration);
    if !cfg.supported || h.mode == UNINITIALIZED || Covered(h, final, now) then h
    else
      h.(last := now, durationMs := final, mode := INTERACTION,
         eventFd := if h.mode == WAITING then h.eventFd + 1 else h.eventFd,
         calls := if h.mode == IDLE then h.calls + [PerfLock] else h.calls)
  }

  predicate Enabled(h: Handler, step: Step) {
    match step
    case Init(_) => true
    case Acquire(_, now) => now.Valid() && (h.mode != UNINITIALIZED ==> h.last.Nanos() <= now.Nanos())
    case Wake => h.thread == Looping && h.mode != IDLE
    case Release => h.thread == WaitingForIdle
    case Exit => true
  }

  function Next(cfg: Config, h: Handler, step: Step): Handler
    requires Enabled(h, step)
  {
    match step
    case Init(fdsOk) =>
      if h.mode != UNINITIALIZED || !fdsOk then h else h.(mode := IDLE, thread := Looping, eventFd := 0)
    case Acquire(duration, now) => DoAcquire(cfg, h, duration, now)
    case Wake =>
      if h.mode == UNINITIALIZED then h.(thread := Finished) else h.(mode := WAITING, thread := WaitingForIdle)
    case Release =>
      if h.mode == WAITING then h.(mode := IDLE, thread := Looping, calls := h.calls + [PerfRel])
      else h.(thread := Looping, eventFd := 0)
    case Exit =>
      if h.mode == UNINITIALIZED then h else h.(mode := UNINITIALIZED, eventFd := h.eventFd + 1)
  }

  // ---------------------------------------------------------------- the invariant

  /** Lock first, then strictly in turn. */
  ghost predicate Alternates(calls: seq<PerfCall>) {
    forall i :: 0 <= i < |calls| ==> calls[i] == if i % 2 == 0 then PerfLock else PerfRel
  }

  predicate Held(h: Handler) {
    |h.calls| % 2 == 1
  }

  ghost predicate Inv(h: Handler) {
    && Alternates(h.calls)
    && (Held(h) <==> h.mode == INTERACTION || h.mode == WAITING)
    && (h.mode == UNINITIALIZED <==> h.thread == NotStarted)
    && h.thread != Finished
    && (h.mode == IDLE ==> h.thread == Looping)
    && (h.mode == WAITING ==> h.thread == WaitingForIdle && h.eventFd == 0)
    && (h.eventFd > 0 ==> h.mode == INTERACTION && h.thread == WaitingForIdle)
    && h.last.Valid()
  }

  lemma {:induction false} OneMoreCall(calls: seq<PerfCall>, c: PerfCall)
    requires Alternates(calls) && c == if |calls| % 2 == 0 then PerfLock else PerfRel
    ensures Alternates(calls + [c]) && |calls + [c]| % 2 != |calls| % 2
  {
  }

  lemma {:induction false} StepKeeps(cfg: Config, h: Handler, step: Step)
    requires Inv(h) && Enabled(h, step) && !step.Exit?
    ensures Inv(Next(cfg, h, step))
  {
    if Held(h) {
      OneMoreCall(h.calls, PerfRel);
    } else {
      OneMoreCall(h.calls, PerfLock);
    }
  }

  predicate Runs(cfg: Config, h: Handler, steps: seq<Step>)
    decreases |steps|
  {
    steps == [] || (Enabled(h, steps[0]) && Runs(cfg, Next(cfg, h, steps[0]), steps[1..]))
  }

  function After(cfg: Config, h: Handler, steps: seq<Step>): Handler
    requires Runs(cfg, h, steps)
    decreases |steps|
  {
    if steps == [] then h else After(cfg, Next(cfg, h, steps[0]), steps[1..])
  }

  /** In every interleaving up to Exit the perf lock is taken and released in turn, is held exactly
      during an interaction, and no stale wake-up waits for a thread that starts to wait. */
  lemma {:induction false} EveryInterleaving(cfg: Config, h: Handler, steps: seq<Step>)
    requires Inv(h) && Runs(cfg, h, steps) && forall i :: 0 <= i < |steps| ==> !steps[i].Exit?
    ensures Inv(After(cfg, h, steps))
    decreases |steps|
  {
    if steps != [] {
      StepKeeps(cfg, h, steps[0]);
      EveryInterleaving(cfg, Next(cfg, h, steps[0]), steps[1..]);
    }
  }

  lemma {:induction false} InitialInv()
    ensures Inv(New)
  {
  }

  /** Exit leaves the perf lock taken exactly when an interaction was going on. */
  lemma {:induction false} ExitLeaksExactly(cfg: Config, h: Handler)
    requires Inv(h)
    ensures Held(Next(cfg, h, Exit)) <==> h.mode == INTERACTION || h.mode == WAITING
  {
  }

  /** ... and the thread then finishes without releasing it. */
  lemma {:induction false} ExitNeverReleases(cfg: Config, h: Handler, steps: seq<Step>)
    requires h.mode == UNINITIALIZED && Runs(cfg, h, steps) && forall i :: 0 <= i < |steps| ==> steps[i].Wake? || steps[i].Release?
    ensures After(cfg, h, steps).calls == h.calls
    decreases |steps|
  {
    if steps != [] {
      ExitNeverReleases(cfg, Next(cfg, h, steps[0]), steps[1..]);
    }
  }

  // ---------------------------------------------------------------- which runs leave the lock taken

  lemma {:induction false} SplitRun(cfg: Config, h: Handler, steps: seq<Step>, last: Step)
    requires Runs(cfg, h, steps + [last])
    ensures Runs(cfg, h, steps) && Enabled(After(cfg, h, steps), last)
    ensures After(cfg, h, steps + [last]) == Next(cfg, After(cfg, h, steps), last)
    decreases |steps|
  {
    var all := steps + [last];
    if steps == [] {
      assert all[1..] == [];
    } else {
      assert all[1..] == steps[1..] + [last] && all[0] == steps[0];
      SplitRun(cfg, Next(cfg, h, steps[0]), steps[1..], last);
    }
  }

  /** The mode after the first i steps of a run from the start. */
  ghost function ModeAt(cfg: Config, steps: seq<Step>, i: nat): Mode
    requires i <= |steps|
  {
    if Runs(cfg, New, steps[..i]) then After(cfg, New, steps[..i]).mode else UNINITIALIZED
  }

  /** The i-th step is an Acquire of an initialised handler. */
  ghost predicate Boosts(cfg: Config, steps: seq<Step>, i: nat)
    requires i < |steps|
  {
    steps[i].Acquire? && cfg.supported && ModeAt(cfg, steps, i) != UNINITIALIZED
  }

  /** The i-th step is the thread coming back from an undisturbed wait. */
  ghost predicate Ends(cfg: Config, steps: seq<Step>, i: nat)
    requires i < |steps|
  {
    steps[i].Release? && ModeAt(cfg, steps, i) == WAITING
  }

  ghost predicate Boosted(cfg: Config, steps: seq<Step>) {
    exists i :: 0 <= i < |steps| && Boosts(cfg, steps, i) && forall j :: i < j < |steps| ==> !Ends(cfg, steps, j)
  }

  lemma {:induction false} BoostedByLast(cfg: Config, before: seq<Step>, last: Step)
    ensures var steps := before + [last];
            Boosted(cfg, steps) <==> Boosts(cfg, steps, |before|) || (Boosted(cfg, before) && !Ends(cfg, steps, |before|))
  {
    var steps := before + [last];
    forall i | 0 <= i < |before|
      ensures Boosts(cfg, steps, i) <==> Boosts(cfg, before, i)
      ensures Ends(cfg, steps, i) <==> Ends(cfg, before, i)
    {
      assert steps[..i] == before[..i];
    }
    if Boosted(cfg, before) && !Ends(cfg, steps, |before|) {
      var i :| 0 <= i < |before| && Boosts(cfg, before, i) && forall j :: i < j < |before| ==> !Ends(cfg, before, j);
      assert Boosts(cfg, steps, i);
    }
    if Boosted(cfg, steps) {
      var i :| 0 <= i < |steps| && Boosts(cfg, steps, i) && forall j :: i < j < |steps| ==> !Ends(cfg, steps, j);
      if i < |before| {
        assert Boosts(cfg, before, i);
      }
    }
  }

  /** A run up to Exit leaves the perf lock taken exactly when some Acquire has not been followed by
      the end of an undisturbed wait; Exit then never gives it back. */
  lemma {:induction false} HeldExactly(cfg: Config, steps: seq<Step>)
    requires Runs(cfg, New, steps) && forall i :: 0 <= i < |steps| ==> !steps[i].Exit?
    ensures Held(After(cfg, New, steps)) <==> Boosted(cfg, steps)
    ensures Held(Next(cfg, After(cfg, New, steps), Exit)) <==> Boosted(cfg, steps)
    decreases |steps|
  {
    if steps != [] {
      var before, last := steps[..|steps| - 1], steps[|steps| - 1];
      assert steps == before + [last];
      SplitRun(cfg, New, before, last);
      HeldExactly(cfg, before);
      EveryInterleaving(cfg, New, before);
      StepKeeps(cfg, After(cfg, New, before), last);
      BoostedByLast(cfg, before, last);
      assert steps[..|before|] == before;
    }
  }

  // ---------------------------------------------------------------- no boost is cut short

  function EndNanos(h: Handler): int {
    h.last.Nanos() + h.durationMs * 1_000_000
  }

  /** After an Acquire, taken or skipped, the hint in force lasts as long as asked, to within 1 ms. */
  lemma {:induction false} AcquireIsCovered(cfg: Config, h: Handler, duration: int, now: Timespec)
    requires Inv(h) && Enabled(h, Acquire(duration, now)) && cfg.supported && h.mode != UNINITIALIZED
    ensures var h' := Next(cfg, h, Acquire(duration, now));
            && Held(h')
            && now.Nanos() + FinalDuration(cfg, duration) * 1_000_000 < EndNanos(h') + 1_000_000
  {
    var h' := DoAcquire(cfg, h, duration, now);
    StepKeeps(cfg, h, Acquire(duration, now));
    if h' == h {
      ElapsedWithinOneMs(h.last, now);
    }
  }

  /** An Acquire during an interaction never brings the end forward by 1 ms or more. */
  lemma {:induction false} EndNeverRecedes(cfg: Config, h: Handler, duration: int, now: Timespec)
    requires Inv(h) && Enabled(h, Acquire(duration, now)) && Held(h)
    ensures EndNanos(h) < EndNanos(Next(cfg, h, Acquire(duration, now))) + 1_000_000
  {
    ElapsedWithinOneMs(h.last, now);
  }

  // ---------------------------------------------------------------- the handler's methods

  class BoostHandler {
    var mode: Mode
    var thread: Thread
    var eventFd: nat
    var durationMs: int
    var last: Timespec
    var calls: seq<PerfCall>
    const cfg: Config

    ghost function View(): Handler
      reads this
    {
      Handler(mode, thread, eventFd, durationMs, last, calls)
    }

    constructor (config: Config)
      ensures View() == New && Inv(View()) && cfg == config
    {
      mode, thread, eventFd, durationMs, last, calls := UNINITIALIZED, NotStarted, 0, 0, Timespec(0, 0), [];
      cfg := config;
    }

    method Initialize(fdsOk: bool) returns (ok: bool)
      requires Inv(View())
      modifies this
      ensures View() == Next(cfg, old(View()), Init(fdsOk)) && Inv(View())
      ensures ok <==> mode != UNINITIALIZED
    {
      StepKeeps(cfg, View(), Init(fdsOk));
      if mode != UNINITIALIZED {
        return true;
      }
      if !fdsOk {
        return false;
      }
      eventFd := 0;
      mode := IDLE;
      thread := Looping;
      return true;
    }

    /** direct: the duration of the hint sent without this machinery, if any. */
    method AcquireBoost(duration: int, now: Timespec) returns (direct: int)
      requires Inv(View()) && Enabled(View(), Acquire(duration, now)) && GoodConfig(cfg) && Int32(duration)
      modifies this
      ensures View() == Next(cfg, old(View()), Acquire(duration, now)) && Inv(View())
      ensures direct == if !cfg.supported || old(mode) == UNINITIALIZED then FinalDuration(cfg, duration) else -1
    {
      StepKeeps(cfg, View(), Acquire(duration, now));
      FinalDurationExact(cfg, duration);
      var final := FinalDuration(cfg, duration);
      direct := -1;
      if !cfg.supported || mode == UNINITIALIZED {
        return final;
      }
      if mode != IDLE && final <= durationMs {
        var elapsed := ElapsedMs(last, now);
        if elapsed <= durationMs - final {
          return;
        }
      }
      last, durationMs := now, final;
      if mode == WAITING {
        eventFd := eventFd + 1;
      } else if mode == IDLE {
        calls := calls + [PerfLock];
      }
      mode := INTERACTION;
    }

    method ReleaseBoost()
      requires Inv(View()) && Enabled(View(), Release)
      modifies this
      ensures View() == Next(cfg, old(View()), Release) && Inv(View())
    {
      StepKeeps(cfg, View(), Release);
      if mode == WAITING {
        calls := calls + [PerfRel];
        mode := IDLE;
      } else {
        eventFd := 0;
      }
      thread := Looping;
    }
  }
}
