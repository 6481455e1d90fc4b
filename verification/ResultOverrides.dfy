/**
 The per-frame bookkeeping that patches requests and results of a camera session (camera/aidl/
 device/CameraDeviceSession.cpp): a derived sensitivity-boost key that every frame must report, and
 a precapture-cancel trigger that old devices do not know and that is replaced on the way down and
 restored on the way up.  Frames interleave freely.
 */
module ResultOverrides {
  import opened Basics

  datatype Tag = Boost | AeTrigger | AeLock | Other(id: int)

  type Metadata = map<Tag, int>
  type Frame = int

  const TRIGGER_IDLE := 0
  const TRIGGER_CANCEL := 2
  const LOCK_OFF := 0
  const LOCK_ON := 1
  const DEFAULT_BOOST := 100

  datatype Override = Override(applyLock: bool, lock: int, applyTrigger: bool, trigger: int)

  /** derive: the device does not report the boost key itself; oldDevice: it does not know CANCEL. */
  datatype Config = Config(derive: bool, oldDevice: bool, lockAvailable: bool, partialResults: int)

  /** What is remembered of one frame: whether a partial result had the boost key, and the override. */
  datatype Notes = Notes(boost: Option<bool>, ae: Option<Override>)

  datatype Event =
    | Requested(ae: Option<Override>)
    | Rejected(ae: Option<Override>)
    | Partial(metadata: Metadata, index: int)
    | Failed

  // ---------------------------------------------------------------- one frame

  /** The settings passed to the device and the override remembered, if the trigger is a cancel. */
  function Lower(cfg: Config, settings: Metadata): (Metadata, Option<Override>) {
    if !cfg.oldDevice || AeTrigger !in settings || settings[AeTrigger] != TRIGGER_CANCEL then (settings, None)
    else
      var idle := settings[AeTrigger := TRIGGER_IDLE];
      if cfg.lockAvailable && (AeLock !in settings || settings[AeLock] == LOCK_OFF)
      then (idle[AeLock := LOCK_ON], Some(Override(true, LOCK_OFF, true, TRIGGER_CANCEL)))
      else (idle, Some(Override(false, LOCK_OFF, true, TRIGGER_CANCEL)))
  }

  function Restore(o: Override, m: Metadata): Metadata {
    var locked := if o.applyLock then m[AeLock := o.lock] else m;
    if o.applyTrigger then locked[AeTrigger := o.trigger] else locked
  }

  function SeenBoost(n: Notes, m: Metadata): bool {
    Boost in m || (n.boost.Some? && n.boost.value)
  }

  /** The metadata delivered for a partial result. */
  function Raise(cfg: Config, n: Notes, m: Metadata, index: int): Metadata {
    var boosted := if cfg.derive && index == cfg.partialResults && !SeenBoost(n, m) then m[Boost := DEFAULT_BOOST] else m;
    if n.ae.Some? then Restore(n.ae.value, boosted) else boosted
  }

  function Step(cfg: Config, n: Notes, e: Event): Notes {
    match e
    case Requested(ae) => if ae.Some? then n.(ae := ae) else n
    case Rejected(ae) => if ae.Some? then n.(ae := None) else n
    case Failed => Notes(None, None)
    case Partial(m, index) =>
      var last := index == cfg.partialResults;
      Notes(if !cfg.derive then n.boost else if last then None else Some(SeenBoost(n, m)),
            if last then None else n.ae)
  }

  function AfterAll(cfg: Config, n: Notes, es: seq<Event>): Notes {
    if es == [] then n else Step(cfg, AfterAll(cfg, n, es[..|es| - 1]), es[|es| - 1])
  }

  const Nothing := Notes(None, None)

  // ---------------------------------------------------------------- the boost key

  /** Some partial result of the frame carried the key. */
  predicate Had(es: seq<Event>) {
    exists i :: 0 <= i < |es| && es[i].Partial? && Boost in es[i].metadata
  }

  predicate Ongoing(cfg: Config, es: seq<Event>) {
    forall i :: 0 <= i < |es| ==> !es[i].Failed? && (es[i].Partial? ==> es[i].index != cfg.partialResults)
  }

  lemma {:induction false} HadOneMore(es: seq<Event>)
    requires es != []
    ensures Had(es) <==> Had(es[..|es| - 1]) || (es[|es| - 1].Partial? && Boost in es[|es| - 1].metadata)
  {
    var n := |es| - 1;
    if Had(es[..n]) {
      var i :| 0 <= i < n && es[..n][i].Partial? && Boost in es[..n][i].metadata;
      assert es[i].Partial?;
    }
    if Had(es) {
      var i :| 0 <= i < |es| && es[i].Partial? && Boost in es[i].metadata;
      if i < n {
        assert es[..n][i] == es[i];
      }
    }
  }

  lemma {:induction false} BoostTracks(cfg: Config, es: seq<Event>)
    requires cfg.derive && Ongoing(cfg, es)
    ensures var n := AfterAll(cfg, Nothing, es);
            (n.boost.Some? && n.boost.value) == Had(es)
  {
    if es != [] {
      BoostTracks(cfg, es[..|es| - 1]);
      HadOneMore(es);
    }
  }

  /** A frame that ends with its final partial result reports the boost key: the device's own value
      wherever a partial result had one, and the default, in the final one, exactly if none had. */
  lemma {:induction false} BoostReported(cfg: Config, es: seq<Event>, m: Metadata)
    requires cfg.derive && Ongoing(cfg, es)
    ensures var final := Raise(cfg, AfterAll(cfg, Nothing, es), m, cfg.partialResults);
            && (Boost in final <==> Boost in m || !Had(es))
            && (Boost in m ==> final[Boost] == m[Boost])
            && (Boost in final && Boost !in m ==> final[Boost] == DEFAULT_BOOST)
    ensures Had(es + [Partial(m, cfg.partialResults)]) || Boost in Raise(cfg, AfterAll(cfg, Nothing, es), m, cfg.partialResults)
  {
    BoostTracks(cfg, es);
    assert (es + [Partial(m, cfg.partialResults)])[..|es|] == es;
    HadOneMore(es + [Partial(m, cfg.partialResults)]);
  }

  /** No earlier partial result gains or loses the key. */
  lemma {:induction false} BoostUntouched(cfg: Config, n: Notes, m: Metadata, index: int)
    requires index != cfg.partialResults || !cfg.derive
    ensures var r := Raise(cfg, n, m, index);
            (Boost in r <==> Boost in m) && (Boost in m ==> r[Boost] == m[Boost])
  {
  }

  // ---------------------------------------------------------------- the cancelled trigger

  /** What the request asked for is what every result of the frame reports, although the device was
      told something else. */
  ghost predicate Reports(settings: Metadata, lowered: Metadata, r: Metadata) {
    && AeTrigger in r && AeTrigger in settings && r[AeTrigger] == settings[AeTrigger]
    && (AeLock in lowered && (AeLock !in settings || lowered[AeLock] != settings[AeLock]) ==>
          AeLock in r && r[AeLock] == if AeLock in settings then settings[AeLock] else LOCK_OFF)
  }

  lemma {:induction false} LowerExact(cfg: Config, settings: Metadata)
    ensures var (low, o) := Lower(cfg, settings);
            && (o.Some? <==> cfg.oldDevice && AeTrigger in settings && settings[AeTrigger] == TRIGGER_CANCEL)
            && (cfg.oldDevice ==> AeTrigger !in low || low[AeTrigger] != TRIGGER_CANCEL)
            && (forall t :: t != AeTrigger && t != AeLock ==> ((t in low <==> t in settings) && (t in low ==> low[t] == settings[t])))
            && (!cfg.lockAvailable ==> ((AeLock in low <==> AeLock in settings) && (AeLock in low ==> low[AeLock] == settings[AeLock])))
  {
  }

  /** Between request and final result the override is kept, so it is applied to each of them. */
  lemma {:induction false} OverrideKept(cfg: Config, n: Notes, es: seq<Event>)
    requires n.ae.Some? && Ongoing(cfg, es) && forall i :: 0 <= i < |es| ==> es[i].Partial?
    ensures AfterAll(cfg, n, es).ae == n.ae
  {
    if es != [] {
      OverrideKept(cfg, n, es[..|es| - 1]);
    }
  }

  lemma {:induction false} CancelIsReportedBack(cfg: Config, settings: Metadata, es: seq<Event>, m: Metadata, index: int)
    requires Lower(cfg, settings).1.Some?
    requires Ongoing(cfg, es) && forall i :: 0 <= i < |es| ==> es[i].Partial?
    ensures var (low, o) := Lower(cfg, settings);
            var n := AfterAll(cfg, Step(cfg, Nothing, Requested(o)), es);
            Reports(settings, low, Raise(cfg, n, m, index))
  {
    OverrideKept(cfg, Step(cfg, Nothing, Requested(Lower(cfg, settings).1)), es);
  }

  /** Nothing else in a result is touched. */
  lemma {:induction false} OtherTagsUntouched(cfg: Config, n: Notes, m: Metadata, index: int, id: int)
    ensures var r := Raise(cfg, n, m, index);
            (Other(id) in r <==> Other(id) in m) && (Other(id) in m ==> r[Other(id)] == m[Other(id)])
    ensures n == Nothing && !cfg.derive ==> Raise(cfg, n, m, index) == m
  {
  }

  // ---------------------------------------------------------------- all frames together

  datatype Tracker = Tracker(boost: map<Frame, bool>, overrides: map<Frame, Override>)

  datatype FrameEvent = FrameEvent(frame: Frame, event: Event)

  function Get<T>(m: map<Frame, T>, f: Frame): Option<T> {
    if f in m then Some(m[f]) else None
  }

  function Put<T>(m: map<Frame, T>, f: Frame, v: Option<T>): map<Frame, T> {
    if v.Some? then m[f := v.value] else m - {f}
  }

  function At(t: Tracker, f: Frame): Notes {
    Notes(Get(t.boost, f), Get(t.overrides, f))
  }

  function Do(cfg: Config, t: Tracker, e: FrameEvent): Tracker {
    var n := Step(cfg, At(t, e.frame), e.event);
    Tracker(Put(t.boost, e.frame, n.boost), Put(t.overrides, e.frame, n.ae))
  }

  function Run(cfg: Config, t: Tracker, es: seq<FrameEvent>): Tracker {
    if es == [] then t else Do(cfg, Run(cfg, t, es[..|es| - 1]), es[|es| - 1])
  }

  /** The events of one frame, in order. */
  function Of(f: Frame, es: seq<FrameEvent>): seq<Event> {
    if es == [] then []
    else if es[|es| - 1].frame == f then Of(f, es[..|es| - 1]) + [es[|es| - 1].event]
    else Of(f, es[..|es| - 1])
  }

  lemma {:induction false} OneFrameChanges(cfg: Config, t: Tracker, e: FrameEvent, f: Frame)
    ensures At(Do(cfg, t, e), f) == if e.frame == f then Step(cfg, At(t, f), e.event) else At(t, f)
  {
  }

  /** In any interleaving, what is remembered of a frame depends on its own events alone. */
  lemma {:induction false} FramesAreIndependent(cfg: Config, t: Tracker, es: seq<FrameEvent>, f: Frame)
    ensures At(Run(cfg, t, es), f) == AfterAll(cfg, At(t, f), Of(f, es))
  {
    if es != [] {
      var n := |es| - 1;
      FramesAreIndependent(cfg, t, es[..n], f);
      OneFrameChanges(cfg, Run(cfg, t, es[..n]), es[n], f);
      var own := Of(f, es[..n]);
      assert (own + [es[n].event])[..|own|] == own;
    }
  }

  const NoFrames := Tracker(map[], map[])

  /** In any interleaving, a frame whose last event is its final result or an error leaves nothing
      behind. */
  lemma {:induction false} NothingSurvives(cfg: Config, es: seq<FrameEvent>, f: Frame)
    requires var own := Of(f, es);
             own == [] || own[|own| - 1].Failed? || (own[|own| - 1].Partial? && own[|own| - 1].index == cfg.partialResults)
    ensures f !in Run(cfg, NoFrames, es).boost && f !in Run(cfg, NoFrames, es).overrides
  {
    FramesAreIndependent(cfg, NoFrames, es, f);
    if !cfg.derive {
      NoBoostNotes(cfg, Of(f, es));
    }
  }

  lemma {:induction false} NoBoostNotes(cfg: Config, es: seq<Event>)
    requires !cfg.derive
    ensures AfterAll(cfg, Nothing, es).boost == None
  {
    if es != [] {
      NoBoostNotes(cfg, es[..|es| - 1]);
    }
  }

  /** In any interleaving: the final result of a frame, as delivered, completes its boost report. */
  lemma {:induction false} EveryFrameReportsBoost(cfg: Config, es: seq<FrameEvent>, f: Frame, m: Metadata)
    requires cfg.derive && Ongoing(cfg, Of(f, es))
    ensures var final := Raise(cfg, At(Run(cfg, NoFrames, es), f), m, cfg.partialResults);
            && (Boost in final <==> Boost in m || !Had(Of(f, es)))
            && (Boost in final ==> final[Boost] == if Boost in m then m[Boost] else DEFAULT_BOOST)
  {
    FramesAreIndependent(cfg, NoFrames, es, f);
    BoostReported(cfg, Of(f, es), m);
  }

  lemma {:induction false} StartWith(cfg: Config, n: Notes, e: Event, es: seq<Event>)
    ensures AfterAll(cfg, n, [e] + es) == AfterAll(cfg, Step(cfg, n, e), es)
  {
    var all := [e] + es;
    if es == [] {
      assert all[..0] == [];
    } else {
      StartWith(cfg, n, e, es[..|es| - 1]);
      assert all[..|all| - 1] == [e] + es[..|es| - 1];
    }
  }

  /** In any interleaving: each result of a frame whose trigger was replaced reports what was asked. */
  lemma {:induction false} EveryCancelIsReportedBack(cfg: Config, es: seq<FrameEvent>, f: Frame, settings: Metadata,
                                                     partials: seq<Event>, m: Metadata, index: int)
    requires Lower(cfg, settings).1.Some? && Of(f, es) == [Requested(Lower(cfg, settings).1)] + partials
    requires Ongoing(cfg, partials) && forall i :: 0 <= i < |partials| ==> partials[i].Partial?
    ensures Reports(settings, Lower(cfg, settings).0, Raise(cfg, At(Run(cfg, NoFrames, es), f), m, index))
  {
    FramesAreIndependent(cfg, NoFrames, es, f);
    StartWith(cfg, Nothing, Requested(Lower(cfg, settings).1), partials);
    CancelIsReportedBack(cfg, settings, partials, m, index);
  }

  // ---------------------------------------------------------------- the session's methods

  class OverrideTable {
    var boost: map<Frame, bool>
    var overrides: map<Frame, Override>
    const cfg: Config

    ghost function View(): Tracker
      reads this
    {
      Tracker(boost, overrides)
    }

    constructor (config: Config)
      ensures View() == NoFrames && cfg == config
    {
      boost, overrides, cfg := map[], map[], config;
    }

    method LowerRequest(frame: Frame, settings: Metadata) returns (low: Metadata)
      modifies this
      ensures low == Lower(cfg, settings).0
      ensures View() == Do(cfg, old(View()), FrameEvent(frame, Requested(Lower(cfg, settings).1)))
    {
      low := settings;
      Unchanged(boost, frame);
      Unchanged(overrides, frame);
      if !cfg.oldDevice || settings == map[] {
        return;
      }
      if AeTrigger in settings && settings[AeTrigger] == TRIGGER_CANCEL {
        low := low[AeTrigger := TRIGGER_IDLE];
        var o := Override(false, LOCK_OFF, true, TRIGGER_CANCEL);
        if cfg.lockAvailable && (AeLock !in settings || settings[AeLock] == LOCK_OFF) {
          low := low[AeLock := LOCK_ON];
          o := o.(applyLock := true, lock := LOCK_OFF);
        }
        overrides := overrides[frame := o];
      }
    }

    method RaiseResult(frame: Frame, m: Metadata, index: int) returns (r: Metadata)
      modifies this
      ensures r == Raise(cfg, At(old(View()), frame), m, index)
      ensures View() == Do(cfg, old(View()), FrameEvent(frame, Partial(m, index)))
    {
      r := m;
      Unchanged(boost, frame);
      Unchanged(overrides, frame);
      if cfg.derive {
        if Boost in m {
          boost := boost[frame := true];
        } else if frame !in boost {
          boost := boost[frame := false];
        }
        if index == cfg.partialResults {
          if !boost[frame] {
            r := r[Boost := DEFAULT_BOOST];
          }
          boost := boost - {frame};
        }
      }
      if frame in overrides {
        r := Restore(overrides[frame], r);
        if index == cfg.partialResults {
          overrides := overrides - {frame};
        }
      }
    }

    /** An error of the device, the request or the result. */
    method Forget(frame: Frame)
      modifies this
      ensures View() == Do(cfg, old(View()), FrameEvent(frame, Failed))
    {
      overrides := overrides - {frame};
      boost := boost - {frame};
    }
  }

  lemma {:induction false} Unchanged<T>(m: map<Frame, T>, f: Frame)
    ensures Put(m, f, Get(m, f)) == m
  {
    if f !in m {
      assert m - {f} == m;
    }
  }
}
