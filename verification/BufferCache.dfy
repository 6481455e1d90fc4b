/**
 The stream map and the cache of imported buffers of a camera session (camera/aidl/device/
 CameraDeviceSession.cpp importBuffer, updateBufferCaches, configureStreams, close, disconnect).
 Every locked section is one step; the device may accept or refuse a configuration, and unmapped
 streams may be freed before or after the device is asked.
 */
module BufferCache {
  type StreamId = int
  type BufferId = int
  type Handle = int

  /** A stream as configured; a later configuration may change only the last four fields. */
  datatype Stream = Stream(id: StreamId, streamType: int, width: int, height: int, physicalId: string,
                           format: int, dataSpace: int, rotation: int, usage: int)

  /** What an imported handle was imported for. */
  datatype Slot = Slot(stream: StreamId, buffer: BufferId)

  type Caches = map<StreamId, map<BufferId, Handle>>

  /** live: the handles imported and not yet freed. */
  datatype Session = Session(streams: map<StreamId, Stream>, caches: Caches, live: map<Handle, Slot>, next: Handle,
                             closed: bool, freeEarly: bool)

  datatype Status = OK | ILLEGAL_ARGUMENT | INTERNAL_ERROR | CLOSED

  function Opened(freeEarly: bool): Session {
    Session(map[], map[], map[], 0, false, freeEarly)
  }

  // ---------------------------------------------------------------- single buffers

  /** Looks the buffer up, importing it when it is new; the import itself may fail. */
  function Import(m: Session, s: StreamId, b: BufferId, importable: bool): Session {
    var cbs := if s in m.caches then m.caches[s] else map[];
    if b in cbs || !importable then m.(caches := m.caches[s := cbs])
    else m.(caches := m.caches[s := cbs[b := m.next]], live := m.live[m.next := Slot(s, b)], next := m.next + 1)
  }

  function Evict(m: Session, c: Slot): Session {
    if c.stream in m.caches && c.buffer in m.caches[c.stream]
    then m.(caches := m.caches[c.stream := m.caches[c.stream] - {c.buffer}],
            live := m.live - {m.caches[c.stream][c.buffer]})
    else m
  }

  function EvictAll(m: Session, cs: seq<Slot>): Session {
    if cs == [] then m else Evict(EvictAll(m, cs[..|cs| - 1]), cs[|cs| - 1])
  }

  // ---------------------------------------------------------------- requests

  /** A request takes the address of its streams' entries, which inserts a blank entry for a stream
      that has none. */
  function Use(m: Session, s: StreamId, blank: Stream): Session {
    if s in m.streams then m else m.(streams := m.streams[s := blank])
  }

  function UseAll(m: Session, ss: seq<StreamId>, blank: Stream): Session {
    if ss == [] then m else Use(UseAll(m, ss[..|ss| - 1], blank), ss[|ss| - 1], blank)
  }

  // ---------------------------------------------------------------- configuring streams

  ghost function Ids(request: seq<Stream>): set<StreamId> {
    set i | 0 <= i < |request| :: request[i].id
  }

  predicate Compatible(a: Stream, b: Stream) {
    a.streamType == b.streamType && a.width == b.width && a.height == b.height && a.physicalId == b.physicalId
  }

  /** Takes one requested stream into the maps; false when a fixed field changed. */
  function Accept(m: Session, r: Stream): (Session, bool) {
    if r.id !in m.streams then
      (m.(streams := m.streams[r.id := r], caches := if r.id in m.caches then m.caches else m.caches[r.id := map[]]), true)
    else if !Compatible(m.streams[r.id], r) then (m, false)
    else
      var s := m.streams[r.id].(format := r.format, dataSpace := r.dataSpace, rotation := r.rotation, usage := r.usage);
      (m.(streams := m.streams[r.id := s]), true)
  }

  function AcceptAll(m: Session, request: seq<Stream>): (Session, bool) {
    if request == [] then (m, true)
    else
      var (m', ok) := AcceptAll(m, request[..|request| - 1]);
      if ok then Accept(m', request[|request| - 1]) else (m', false)
  }

  /** Frees all buffers of the given streams and forgets their caches. */
  function Cleanup(m: Session, ids: set<StreamId>): Session {
    m.(caches := m.caches - ids, live := map h | h in m.live && m.live[h].stream !in ids :: m.live[h])
  }

  ghost function Unused(m: Session, request: seq<Stream>): set<StreamId> {
    m.streams.Keys - Ids(request)
  }

  function WithEmptyCaches(m: Session, ids: set<StreamId>): Session {
    m.(caches := map s | s in m.caches.Keys + ids :: if s in m.caches then m.caches[s] else map[])
  }

  /** The maps as the device sees them while it is asked. */
  ghost function Prepared(m: Session, request: seq<Stream>): Session {
    var a := AcceptAll(m, request).0;
    if m.freeEarly then Cleanup(a, Unused(a, request)) else a
  }

  ghost function Committed(m: Session, request: seq<Stream>): Session {
    var unused := Unused(m, request);
    var c := if m.freeEarly then m else Cleanup(m, unused);
    c.(streams := c.streams - unused)
  }

  ghost function RolledBack(m: Session, request: seq<Stream>): Session {
    if m.freeEarly then WithEmptyCaches(m, Unused(m, request)) else m
  }

  /** idle: no request is in flight; ret: the device's answer. */
  ghost function Configure(m: Session, request: seq<Stream>, idle: bool, ret: Status): (Session, Status) {
    if !idle then (m, INTERNAL_ERROR)
    else if m.closed then (m, CLOSED)
    else if !AcceptAll(m, request).1 then (AcceptAll(m, request).0, INTERNAL_ERROR)
    else if ret == OK then (Committed(Prepared(m, request), request), OK)
    else (RolledBack(Prepared(m, request), request), ret)
  }

  function CloseSession(m: Session): Session {
    if m.closed then m else m.(caches := map[], live := map[], closed := true)
  }

  // ---------------------------------------------------------------- the invariant

  /** The cached handles are exactly the live imports, each cached in one place. */
  ghost predicate Exact(m: Session) {
    && (forall s, b :: s in m.caches && b in m.caches[s] ==>
          m.caches[s][b] in m.live && m.live[m.caches[s][b]] == Slot(s, b))
    && (forall h :: h in m.live ==>
          h < m.next && m.live[h].stream in m.caches && m.live[h].buffer in m.caches[m.live[h].stream]
          && m.caches[m.live[h].stream][m.live[h].buffer] == h)
  }

  /** Every configured stream has a cache. */
  ghost predicate Backed(m: Session) {
    !m.closed ==> m.streams.Keys <= m.caches.Keys
  }

  ghost predicate SameDomains(m: Session) {
    !m.closed ==> m.streams.Keys == m.caches.Keys
  }

  lemma {:induction false} ImportKeeps(m: Session, s: StreamId, b: BufferId, importable: bool)
    requires Exact(m)
    ensures Exact(Import(m, s, b, importable))
    ensures Backed(m) ==> Backed(Import(m, s, b, importable))
  {
  }

  /** Importing keeps the domains equal exactly for a configured stream. */
  lemma {:induction false} ImportDomainExact(m: Session, s: StreamId, b: BufferId, importable: bool)
    requires SameDomains(m) && !m.closed
    ensures SameDomains(Import(m, s, b, importable)) <==> s in m.streams
  {
    assert Import(m, s, b, importable).caches.Keys == m.caches.Keys + {s};
  }

  lemma {:induction false} UseAllStreams(m: Session, ss: seq<StreamId>, blank: Stream)
    ensures var m' := UseAll(m, ss, blank);
            m' == m.(streams := m'.streams) && m'.streams.Keys == m.streams.Keys + (set i | 0 <= i < |ss| :: ss[i])
  {
    if ss != [] {
      var n := |ss| - 1;
      UseAllStreams(m, ss[..n], blank);
      assert (set i | 0 <= i < |ss| :: ss[i]) == (set i | 0 <= i < n :: ss[..n][i]) + {ss[n]} by {
        assert forall i :: 0 <= i < n ==> ss[..n][i] == ss[i];
      }
    }
  }

  /** A request keeps every stream backed by a cache exactly when each of its streams has one, or is
      configured; and it keeps the domains equal exactly when its streams are configured. */
  lemma {:induction false} RequestExact(m: Session, ss: seq<StreamId>, blank: Stream)
    requires !m.closed
    ensures Backed(m) ==> (Backed(UseAll(m, ss, blank)) <==> forall i :: 0 <= i < |ss| ==> ss[i] in m.streams || ss[i] in m.caches)
    ensures SameDomains(m) ==> (SameDomains(UseAll(m, ss, blank)) <==> forall i :: 0 <= i < |ss| ==> ss[i] in m.streams)
  {
    UseAllStreams(m, ss, blank);
    var m' := UseAll(m, ss, blank);
    assert forall i :: 0 <= i < |ss| ==> ss[i] in m'.streams;
  }

  lemma {:induction false} EvictKeeps(m: Session, c: Slot)
    requires Exact(m)
    ensures Exact(Evict(m, c)) && Evict(m, c).caches.Keys == m.caches.Keys && Evict(m, c).streams == m.streams
  {
  }

  lemma {:induction false} EvictAllKeeps(m: Session, cs: seq<Slot>)
    requires Exact(m)
    ensures Exact(EvictAll(m, cs)) && EvictAll(m, cs).caches.Keys == m.caches.Keys
    ensures EvictAll(m, cs).streams == m.streams && EvictAll(m, cs).closed == m.closed
  {
    if cs != [] {
      EvictAllKeeps(m, cs[..|cs| - 1]);
      EvictKeeps(EvictAll(m, cs[..|cs| - 1]), cs[|cs| - 1]);
    }
  }

  lemma {:induction false} CleanupKeeps(m: Session, ids: set<StreamId>)
    requires Exact(m)
    ensures Exact(Cleanup(m, ids))
  {
  }

  lemma {:induction false} EmptyCachesKeep(m: Session, ids: set<StreamId>)
    requires Exact(m)
    ensures Exact(WithEmptyCaches(m, ids))
  {
  }

  /** Taking streams in adds caches, empty ones, and touches no buffer. */
  ghost predicate Grows(m: Session, m': Session) {
    && m'.closed == m.closed && m'.freeEarly == m.freeEarly && m'.live == m.live && m'.next == m.next
    && m.streams.Keys <= m'.streams.Keys && m.caches.Keys <= m'.caches.Keys
    && (forall s :: s in m'.caches ==> m'.caches[s] == if s in m.caches then m.caches[s] else map[])
    && m'.caches.Keys - m.caches.Keys <= m'.streams.Keys && m'.streams.Keys - m.streams.Keys <= m'.caches.Keys
  }

  lemma {:induction false} AcceptGrows(m: Session, r: Stream)
    ensures Grows(m, Accept(m, r).0)
    ensures Accept(m, r).1 ==> Accept(m, r).0.streams.Keys == m.streams.Keys + {r.id}
  {
  }

  lemma {:induction false} GrowsOn(a: Session, b: Session, c: Session)
    requires Grows(a, b) && Grows(b, c)
    ensures Grows(a, c)
  {
  }

  lemma {:induction false} AcceptAllGrows(m: Session, request: seq<Stream>)
    ensures Grows(m, AcceptAll(m, request).0)
  {
    if request != [] {
      var before := AcceptAll(m, request[..|request| - 1]).0;
      AcceptAllGrows(m, request[..|request| - 1]);
      AcceptGrows(before, request[|request| - 1]);
      GrowsOn(m, before, Accept(before, request[|request| - 1]).0);
    }
  }

  lemma {:induction false} IdsOneMore(request: seq<Stream>)
    requires request != []
    ensures Ids(request) == Ids(request[..|request| - 1]) + {request[|request| - 1].id}
  {
    var n := |request| - 1;
    forall x | x in Ids(request) ensures x in Ids(request[..n]) + {request[n].id} {
      var i :| 0 <= i < |request| && request[i].id == x;
      if i < n {
        assert request[..n][i].id == x;
      }
    }
    forall x | x in Ids(request[..n]) ensures x in Ids(request) {
      var i :| 0 <= i < n && request[..n][i].id == x;
      assert request[i].id == x;
    }
    assert request[n].id in Ids(request);
  }

  /** An accepted request leaves the streams known so far and those requested. */
  lemma {:induction false} AcceptAllIds(m: Session, request: seq<Stream>)
    requires AcceptAll(m, request).1
    ensures AcceptAll(m, request).0.streams.Keys == m.streams.Keys + Ids(request)
  {
    if request == [] {
      assert Ids(request) == {};
    } else {
      AcceptAllIds(m, request[..|request| - 1]);
      AcceptGrows(AcceptAll(m, request[..|request| - 1]).0, request[|request| - 1]);
      IdsOneMore(request);
    }
  }

  lemma {:induction false} GrowsKeeps(m: Session, m': Session)
    requires Grows(m, m') && Exact(m)
    ensures Exact(m')
    ensures Backed(m) ==> Backed(m')
    ensures SameDomains(m) ==> SameDomains(m')
  {
  }

  /** The two ways to forget unused streams come to the same, and keep exactly the requested ones. */
  lemma {:induction false} CommitExact(a: Session, request: seq<Stream>)
    requires Exact(a)
    ensures var unused := Unused(a, request);
            var p := if a.freeEarly then Cleanup(a, unused) else a;
            var c := Committed(p, request);
            && c == Cleanup(a, unused).(streams := a.streams - unused)
            && Exact(c)
            && (Backed(a) ==> Backed(c)) && (SameDomains(a) ==> SameDomains(c))
  {
    CleanupKeeps(a, Unused(a, request));
  }

  lemma {:induction false} RollBackExact(a: Session, request: seq<Stream>)
    requires Exact(a) && (!a.closed ==> Backed(a))
    ensures var unused := Unused(a, request);
            var p := if a.freeEarly then Cleanup(a, unused) else a;
            var r := RolledBack(p, request);
            && Exact(r) && r.streams == a.streams && r.closed == a.closed
            && r.caches.Keys == a.caches.Keys + (if a.freeEarly then unused else {})
            && (forall s :: s in a.caches ==> r.caches[s] == if a.freeEarly && s in unused then map[] else a.caches[s])
  {
    var unused := Unused(a, request);
    if a.freeEarly {
      CleanupKeeps(a, unused);
      EmptyCachesKeep(Cleanup(a, unused), unused);
    }
  }

  lemma {:induction false} PreparedShape(m: Session, request: seq<Stream>)
    ensures var a := AcceptAll(m, request).0;
            Prepared(m, request) == if a.freeEarly then Cleanup(a, Unused(a, request)) else a
  {
    AcceptAllGrows(m, request);
  }

  lemma {:induction false} ConfigureKeepsExact(m: Session, request: seq<Stream>, idle: bool, ret: Status)
    requires Exact(m)
    ensures Exact(Configure(m, request, idle, ret).0)
  {
    var a := AcceptAll(m, request).0;
    AcceptAllGrows(m, request);
    GrowsKeeps(m, a);
    PreparedShape(m, request);
    CommitExact(a, request);
    var unused := Unused(a, request);
    CleanupKeeps(a, unused);
    EmptyCachesKeep(Cleanup(a, unused), unused);
  }

  /** Whatever the policy and the device's answer, every import stays accounted for. */
  lemma {:induction false} ConfigureKeeps(m: Session, request: seq<Stream>, idle: bool, ret: Status)
    requires Exact(m) && Backed(m)
    ensures var m' := Configure(m, request, idle, ret).0;
            Exact(m') && Backed(m') && (SameDomains(m) ==> SameDomains(m'))
  {
    var a := AcceptAll(m, request).0;
    AcceptAllGrows(m, request);
    GrowsKeeps(m, a);
    PreparedShape(m, request);
    CommitExact(a, request);
    RollBackExact(a, request);
  }

  /** A successful configuration leaves exactly the requested streams, and their buffers cached. */
  lemma {:induction false} ConfigureExact(m: Session, request: seq<Stream>, idle: bool, ret: Status)
    requires Exact(m) && SameDomains(m)
    ensures var (m', status) := Configure(m, request, idle, ret);
            status == OK ==>
              && m'.streams.Keys == Ids(request) && m'.caches.Keys == Ids(request)
              && (forall s :: s in m'.caches ==> m'.caches[s] == if s in m.caches then m.caches[s] else map[])
  {
    if idle && !m.closed && AcceptAll(m, request).1 && ret == OK {
      var a := AcceptAll(m, request).0;
      AcceptAllGrows(m, request);
      GrowsKeeps(m, a);
      PreparedShape(m, request);
      CommitExact(a, request);
      AcceptAllIds(m, request);
    }
  }

  /** A refused configuration forgets no stream; only the buffers of streams the request left out
      are gone, and only under the early policy. */
  lemma {:induction false} RefusalExact(m: Session, request: seq<Stream>, idle: bool, ret: Status)
    requires Exact(m) && SameDomains(m)
    ensures var (m', status) := Configure(m, request, idle, ret);
            status != OK && !m.closed ==>
              && m.streams.Keys <= m'.streams.Keys
              && m.caches.Keys <= m'.caches.Keys
              && (forall s :: s in m.caches ==>
                    m'.caches[s] == m.caches[s] || (m.freeEarly && s !in Ids(request) && m'.caches[s] == map[]))
  {
    var a := AcceptAll(m, request).0;
    AcceptAllGrows(m, request);
    GrowsKeeps(m, a);
    PreparedShape(m, request);
    RollBackExact(a, request);
  }

  // ---------------------------------------------------------------- whole runs

  datatype Step =
    | ImportBuffer(stream: StreamId, buffer: BufferId, importable: bool)
    | Request(streams: seq<StreamId>, blank: Stream)
    | UpdateCaches(remove: seq<Slot>)
    | ConfigureStreams(request: seq<Stream>, idle: bool, ret: Status)
    | Close
    | Disconnect

  ghost function Next(m: Session, step: Step): Session {
    match step
    case ImportBuffer(s, b, importable) => Import(m, s, b, importable)
    case Request(ss, blank) => UseAll(m, ss, blank)
    case UpdateCaches(cs) => EvictAll(m, cs)
    case ConfigureStreams(request, idle, ret) => Configure(m, request, idle, ret).0
    case Close => CloseSession(m)
    case Disconnect => m.(closed := true)
  }

  ghost predicate Inv(m: Session) {
    Exact(m) && Backed(m)
  }

  /** Whether the step's own operations are defined: a configuration that forgets a stream looks its
      cache up, and there is no way on if the cache is missing. */
  ghost predicate Defined(m: Session, step: Step) {
    step.ConfigureStreams? && step.idle && !m.closed && AcceptAll(m, step.request).1 && (m.freeEarly || step.ret == OK) ==>
      var a := AcceptAll(m, step.request).0;
      Unused(a, step.request) <= a.caches.Keys
  }

  /** Imports and requests are for streams that are configured. */
  ghost predicate OnConfigured(m: Session, step: Step) {
    && (step.ImportBuffer? ==> step.stream in m.streams)
    && (step.Request? ==> forall i :: 0 <= i < |step.streams| ==> step.streams[i] in m.streams)
  }

  lemma {:induction false} BackedIsDefined(m: Session, step: Step)
    requires Exact(m) && Backed(m)
    ensures Defined(m, step)
  {
    if step.ConfigureStreams? {
      AcceptAllGrows(m, step.request);
      GrowsKeeps(m, AcceptAll(m, step.request).0);
    }
  }

  /** The accounts hold after every defined step, whatever the streams. */
  lemma {:induction false} StepKeepsExact(m: Session, step: Step)
    requires Exact(m)
    ensures Exact(Next(m, step))
  {
    match step
    case ImportBuffer(s, b, importable) => ImportKeeps(m, s, b, importable);
    case Request(ss, blank) => UseAllStreams(m, ss, blank);
    case UpdateCaches(cs) => EvictAllKeeps(m, cs);
    case ConfigureStreams(request, idle, ret) => ConfigureKeepsExact(m, request, idle, ret);
    case Close =>
    case Disconnect =>
  }

  lemma {:induction false} StepKeepsDomains(m: Session, step: Step)
    requires Exact(m) && SameDomains(m) && OnConfigured(m, step)
    ensures SameDomains(Next(m, step))
  {
    match step
    case ImportBuffer(s, b, importable) =>
      if !m.closed { ImportDomainExact(m, s, b, importable); }
    case Request(ss, blank) =>
      UseAllStreams(m, ss, blank);
      if !m.closed { RequestExact(m, ss, blank); }
    case UpdateCaches(cs) => EvictAllKeeps(m, cs);
    case ConfigureStreams(request, idle, ret) => ConfigureKeeps(m, request, idle, ret);
    case Close =>
    case Disconnect =>
  }

  /** Every step of the run is defined when it is taken. */
  ghost predicate Runs(m: Session, steps: seq<Step>) {
    steps == [] || (Runs(m, steps[..|steps| - 1]) && Defined(After(m, steps[..|steps| - 1]), steps[|steps| - 1]))
  }

  ghost function After(m: Session, steps: seq<Step>): Session {
    if steps == [] then m else Next(After(m, steps[..|steps| - 1]), steps[|steps| - 1])
  }

  /** All imports and requests of the run are for streams configured at the time. */
  ghost predicate Proper(m: Session, steps: seq<Step>) {
    steps == [] || (Proper(m, steps[..|steps| - 1]) && OnConfigured(After(m, steps[..|steps| - 1]), steps[|steps| - 1]))
  }

  /** Over every run, live imports and cached handles are the same, one place each.  A run that keeps
      to configured streams is defined throughout, and while the session is open its two maps agree
      on the streams. */
  lemma {:induction false} EveryRunIsExact(freeEarly: bool, steps: seq<Step>)
    ensures Exact(After(Opened(freeEarly), steps))
    ensures Proper(Opened(freeEarly), steps) ==> Runs(Opened(freeEarly), steps) && SameDomains(After(Opened(freeEarly), steps))
  {
    if steps != [] {
      var before, last := After(Opened(freeEarly), steps[..|steps| - 1]), steps[|steps| - 1];
      EveryRunIsExact(freeEarly, steps[..|steps| - 1]);
      StepKeepsExact(before, last);
      if Proper(Opened(freeEarly), steps) {
        BackedIsDefined(before, last);
        StepKeepsDomains(before, last);
      }
    }
  }

  /** It can go wrong: a request for a stream that was never configured, with an empty buffer, makes
      the next configuration look up a cache that does not exist. */
  lemma {:induction false} UnknownStreamBreaksConfiguration(freeEarly: bool, s: StreamId, blank: Stream)
    ensures var steps := [Request([s], blank)];
            && Runs(Opened(freeEarly), steps)
            && !Defined(After(Opened(freeEarly), steps), ConfigureStreams([], true, OK))
  {
    var m := Opened(freeEarly);
    var steps := [Request([s], blank)];
    assert steps[..0] == [] && [s][..0] == [];
    assert Runs(m, []) && After(m, []) == m && UseAll(m, [], blank) == m;
    var m' := After(m, steps);
    assert s in m'.streams && s !in m'.caches;
    assert s in Unused(m', []);
  }

  /** Closing an open session leaves no import behind; a session disconnected first keeps them all. */
  lemma {:induction false} ClosingFreesEverything(m: Session)
    requires !m.closed
    ensures Next(m, Close).live == map[] && Next(m, Close).caches == map[]
    ensures Next(Next(m, Disconnect), Close).live == m.live
  {
  }
}
