/**
 The methods of a camera session that work on its stream map and buffer cache (camera/aidl/device/
 CameraDeviceSession.cpp), proved against BufferCache.  Freeing a handle requires it to be live, so
 none is ever freed twice.
 */
module CameraBuffers {
  import opened BufferCache

  const BUFFER_ID_NO_BUFFER: BufferId := 0

  lemma {:induction false} CleanupMore(m: Session, ids: set<StreamId>, id: StreamId)
    ensures Cleanup(Cleanup(m, ids), {id}) == Cleanup(m, ids + {id})
  {
    assert m.caches - ids - {id} == m.caches - (ids + {id});
  }

  lemma {:induction false} CleanupNone(m: Session)
    ensures Cleanup(m, {}) == m
  {
    assert m.caches - {} == m.caches;
    assert (map h | h in m.live && m.live[h].stream !in {} :: m.live[h]) == m.live;
  }

  lemma {:induction false} LeftAfterCleanup(m: Session, id: StreamId, live: map<Handle, Slot>)
    requires forall h :: h in live <==> h in m.live && m.live[h].stream != id
    requires forall h :: h in live ==> live[h] == m.live[h]
    ensures live == Cleanup(m, {id}).live
  {
    var c := Cleanup(m, {id}).live;
    forall h | h in live.Keys ensures h in c.Keys {
    }
    forall h | h in c.Keys ensures h in live.Keys {
    }
    assert live.Keys == c.Keys;
    assert forall h :: h in live ==> live[h] == c[h];
  }

  lemma {:induction false} Rebuilt(m: Session, ids: set<StreamId>, caches: Caches)
    requires caches.Keys == m.caches.Keys + ids
    requires forall s :: s in caches ==> caches[s] == if s in m.caches then m.caches[s] else map[]
    ensures caches == WithEmptyCaches(m, ids).caches
  {
    var c := WithEmptyCaches(m, ids).caches;
    assert caches.Keys == c.Keys;
    assert forall s :: s in caches ==> caches[s] == c[s];
  }

  class CameraSession {
    var streams: map<StreamId, Stream>
    var caches: Caches
    var live: map<Handle, Slot>
    var next: Handle
    var closed: bool
    const freeEarly: bool

    ghost function View(): Session
      reads this
    {
      Session(streams, caches, live, next, closed, freeEarly)
    }

    constructor (early: bool)
      ensures View() == Opened(early) && Inv(View())
    {
      streams, caches, live, next, closed, freeEarly := map[], map[], map[], 0, false, early;
    }

    /** The importer's side of freeing: only an import that is still live may be freed. */
    method FreeBuffer(h: Handle)
      requires h in live
      modifies this`live
      ensures live == old(live) - {h}
    {
      live := live - {h};
    }

    /** hasHandle: the request carries a buffer handle; importable: the importer can map it. */
    method ImportBuffer(s: StreamId, b: BufferId, hasHandle: bool, allowEmpty: bool, importable: bool)
      returns (status: Status)
      modifies this
      ensures !hasHandle && b == BUFFER_ID_NO_BUFFER ==>
                View() == old(View()) && status == if allowEmpty then OK else ILLEGAL_ARGUMENT
      ensures hasHandle || b != BUFFER_ID_NO_BUFFER ==>
                View() == Import(old(View()), s, b, importable)
                && s in caches && status == if b in caches[s] then OK else INTERNAL_ERROR
    {
      if !hasHandle && b == BUFFER_ID_NO_BUFFER {
        return if allowEmpty then OK else ILLEGAL_ARGUMENT;
      }
      if s !in caches {
        caches := caches[s := map[]];
      }
      if b !in caches[s] {
        if !importable {
          return INTERNAL_ERROR;
        }
        live := live[next := Slot(s, b)];
        caches := caches[s := caches[s][b := next]];
        next := next + 1;
      }
      return OK;
    }

    /** The part of a request that takes the addresses of its streams' entries. */
    method UseStreams(ss: seq<StreamId>, blank: Stream)
      modifies this`streams
      ensures View() == UseAll(old(View()), ss, blank)
    {
      var i := 0;
      while i < |ss|
        invariant 0 <= i <= |ss| && View() == UseAll(old(View()), ss[..i], blank)
      {
        assert ss[..i + 1][..i] == ss[..i];
        if ss[i] !in streams {
          streams := streams[ss[i] := blank];
        }
        i := i + 1;
      }
      assert ss[..i] == ss;
    }

    method UpdateBufferCaches(remove: seq<Slot>)
      requires Exact(View())
      modifies this
      ensures View() == EvictAll(old(View()), remove) && Exact(View())
    {
      var i := 0;
      while i < |remove|
        invariant 0 <= i <= |remove| && Exact(View())
        invariant View() == EvictAll(old(View()), remove[..i])
      {
        assert remove[..i + 1][..i] == remove[..i];
        EvictKeeps(View(), remove[i]);
        EvictBuffer(remove[i]);
        i := i + 1;
      }
      assert remove[..i] == remove;
    }

    method EvictBuffer(c: Slot)
      requires Exact(View())
      modifies this
      ensures View() == Evict(old(View()), c)
    {
      if c.stream in caches && c.buffer in caches[c.stream] {
        FreeBuffer(caches[c.stream][c.buffer]);
        caches := caches[c.stream := caches[c.stream] - {c.buffer}];
      }
    }

    /** Frees the buffers of one stream, in whatever order they are cached. */
    method CleanupBuffers(id: StreamId)
      requires Exact(View()) && id in caches
      modifies this`caches, this`live
      ensures View() == Cleanup(old(View()), {id}) && Exact(View())
    {
      CleanupKeeps(View(), {id});
      var rest := caches[id];
      while exists b :: b in rest
        invariant streams == old(streams) && caches == old(caches) && next == old(next) && closed == old(closed)
        invariant forall b :: b in rest ==> b in caches[id] && rest[b] == caches[id][b]
        invariant forall h :: h in live <==> h in old(live) && (old(live)[h].stream == id ==> old(live)[h].buffer in rest)
        invariant forall h :: h in live ==> live[h] == old(live)[h]
        decreases rest.Keys
      {
        var b :| b in rest;
        FreeBuffer(rest[b]);
        rest := rest - {b};
      }
      LeftAfterCleanup(old(View()), id, live);
      caches := caches - {id};
    }

    method IsRequested(id: StreamId, request: seq<Stream>) returns (found: bool)
      ensures found <==> id in Ids(request)
    {
      found := false;
      var i := 0;
      while i < |request|
        invariant 0 <= i <= |request| && !found
        invariant forall j :: 0 <= j < i ==> request[j].id != id
      {
        if id == request[i].id {
          found := true;
          return;
        }
        i := i + 1;
      }
    }

    /** Frees the buffers of every known stream that the request leaves out. */
    method CleanupUnused(request: seq<Stream>)
      requires Exact(View()) && streams.Keys <= caches.Keys
      modifies this
      ensures View() == Cleanup(old(View()), Unused(old(View()), request)) && Exact(View())
    {
      var rest := streams.Keys;
      ghost var gone: set<StreamId> := {};
      CleanupNone(View());
      while exists id :: id in rest
        invariant Exact(View()) && rest <= streams.Keys && rest <= caches.Keys
        invariant gone == (streams.Keys - rest) - Ids(request)
        invariant View() == Cleanup(old(View()), gone)
        decreases rest
      {
        var id :| id in rest;
        var found := IsRequested(id, request);
        if !found {
          CleanupBuffers(id);
          CleanupMore(old(View()), gone, id);
          gone := gone + {id};
        }
        rest := rest - {id};
      }
      assert gone == Unused(old(View()), request);
    }

    /** Forgets every known stream that the request leaves out. */
    method ForgetUnused(request: seq<Stream>)
      modifies this`streams
      ensures streams == old(streams) - (old(streams).Keys - Ids(request))
    {
      var rest := streams.Keys;
      while exists id :: id in rest
        invariant rest <= old(streams).Keys
        invariant streams == old(streams) - ((old(streams).Keys - rest) - Ids(request))
        decreases rest
      {
        var id :| id in rest;
        var found := IsRequested(id, request);
        if !found {
          streams := streams - {id};
        }
        rest := rest - {id};
      }
    }

    method AcceptStream(r: Stream) returns (ok: bool)
      modifies this
      ensures (View(), ok) == Accept(old(View()), r)
    {
      if r.id !in streams {
        streams := streams[r.id := r];
        if r.id !in caches {
          caches := caches[r.id := map[]];
        }
        return true;
      }
      var s := streams[r.id];
      if s.streamType != r.streamType || s.width != r.width || s.height != r.height || s.physicalId != r.physicalId {
        return false;
      }
      streams := streams[r.id := s.(format := r.format, dataSpace := r.dataSpace, rotation := r.rotation, usage := r.usage)];
      return true;
    }

    method AcceptStreams(request: seq<Stream>) returns (ok: bool)
      modifies this
      ensures (View(), ok) == AcceptAll(old(View()), request)
    {
      ok := true;
      var i := 0;
      while i < |request| && ok
        invariant 0 <= i <= |request|
        invariant (View(), ok) == AcceptAll(old(View()), request[..i])
      {
        assert request[..i + 1][..i] == request[..i];
        ok := AcceptStream(request[i]);
        i := i + 1;
      }
      if ok {
        assert request[..i] == request;
      } else {
        RefusedStays(old(View()), request, i);
      }
    }

    /** Puts back empty caches for the streams whose buffers went early. */
    method RebuildCaches(request: seq<Stream>)
      modifies this`caches
      ensures View() == WithEmptyCaches(old(View()), Unused(old(View()), request))
    {
      var rest := streams.Keys;
      while exists id :: id in rest
        invariant rest <= streams.Keys && streams == old(streams)
        invariant caches.Keys == old(caches).Keys + ((streams.Keys - rest) - Ids(request))
        invariant forall s :: s in caches ==> caches[s] == if s in old(caches) then old(caches)[s] else map[]
        decreases rest
      {
        var id :| id in rest;
        var found := IsRequested(id, request);
        if !found && id !in caches {
          caches := caches[id := map[]];
        }
        rest := rest - {id};
      }
      assert rest == {};
      Rebuilt(old(View()), Unused(old(View()), request), caches);
    }

    /** The whole of configureStreams; device answers once the maps are prepared. */
    method ConfigureStreams(request: seq<Stream>, idle: bool, device: Status) returns (status: Status)
      requires Inv(View())
      modifies this
      ensures (View(), status) == Configure(old(View()), request, idle, device) && Inv(View())
    {
      ConfigureKeeps(View(), request, idle, device);
      if !idle {
        return INTERNAL_ERROR;
      }
      if closed {
        return CLOSED;
      }
      var ok := AcceptStreams(request);
      AcceptAllGrows(old(View()), request);
      GrowsKeeps(old(View()), View());
      if !ok {
        return INTERNAL_ERROR;
      }
      if freeEarly {
        CleanupUnused(request);
      }
      FinishConfiguration(request, device);
      return device;
    }

    method FinishConfiguration(request: seq<Stream>, device: Status)
      requires Exact(View()) && (!freeEarly ==> streams.Keys <= caches.Keys)
      modifies this
      ensures View() == if device == OK then Committed(old(View()), request) else RolledBack(old(View()), request)
    {
      if device == OK {
        if !freeEarly {
          CleanupUnused(request);
        }
        ForgetUnused(request);
      } else if freeEarly {
        RebuildCaches(request);
      }
    }

    method CloseDevice()
      requires Exact(View())
      modifies this
      ensures View() == CloseSession(old(View())) && Exact(View())
    {
      if !closed {
        FreeAll();
        closed := true;
      }
    }

    method FreeAll()
      requires Exact(View())
      modifies this`caches, this`live
      ensures caches == map[] && live == map[]
    {
      var rest := caches.Keys;
      while exists id :: id in rest
        invariant Exact(View()) && rest == caches.Keys
        invariant streams == old(streams) && next == old(next) && closed == old(closed)
        decreases rest
      {
        var id :| id in rest;
        CleanupBuffers(id);
        rest := rest - {id};
      }
      assert forall h :: h !in live;
    }
  }

  /** Once a stream is refused, nothing of the rest of the request is looked at. */
  lemma {:induction false} RefusedStays(m: Session, request: seq<Stream>, i: nat)
    requires i <= |request| && !AcceptAll(m, request[..i]).1
    ensures AcceptAll(m, request) == AcceptAll(m, request[..i])
  {
    if i == |request| {
      assert request[..i] == request;
    } else {
      assert request[..|request| - 1][..i] == request[..i];
      RefusedStays(m, request[..|request| - 1], i);
    }
  }
}
