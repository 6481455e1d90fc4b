/**
 Allocation of message channels (power-libperfmgr/aidl/ChannelManager.cpp, ChannelGroup.cpp,
 SessionChannel.cpp): every (tgid, uid) pair gets one of 16 slots of a group, groups appear when
 all others are full and disappear with their last channel.
 */
module Channels {
  const MAX_CHANNELS: int := 16

  datatype Key = Key(tgid: int, uid: int)

  datatype Place = Place(group: int, slot: nat)

  datatype Slot = Free | Channel(key: Key, place: Place)

  datatype Group = Group(slots: seq<Slot>, live: int)

  /** ids: the group ids in the map's own, ascending, order. */
  datatype Manager = Manager(ids: seq<int>, groups: map<int, Group>, channels: map<Key, Place>)

  const NoChannels := Manager([], map[], map[])

  // ---------------------------------------------------------------- groups

  function Occupied(slots: seq<Slot>): nat {
    if slots == [] then 0 else Occupied(slots[..|slots| - 1]) + (if slots[|slots| - 1].Channel? then 1 else 0)
  }

  /** The first free slot, or the number of slots. */
  function FirstFree(slots: seq<Slot>): (i: nat)
    ensures i <= |slots|
    ensures i < |slots| ==> slots[i].Free?
    ensures forall j :: 0 <= j < i ==> slots[j].Channel?
  {
    if slots == [] then 0
    else
      var i := FirstFree(slots[..|slots| - 1]);
      if i == |slots| - 1 && slots[i].Channel? then |slots| else i
  }

  lemma {:induction false} FullExactly(slots: seq<Slot>)
    ensures Occupied(slots) <= |slots|
    ensures FirstFree(slots) == |slots| <==> Occupied(slots) == |slots|
  {
    if slots != [] {
      FullExactly(slots[..|slots| - 1]);
    }
  }

  lemma {:induction false} OccupiedUpdate(slots: seq<Slot>, i: nat, c: Slot)
    requires i < |slots|
    ensures Occupied(slots[i := c]) == Occupied(slots) - (if slots[i].Channel? then 1 else 0) + (if c.Channel? then 1 else 0)
  {
    var n := |slots| - 1;
    if i == n {
      assert slots[i := c][..n] == slots[..n];
    } else {
      OccupiedUpdate(slots[..n], i, c);
      assert slots[i := c][..n] == slots[..n][i := c];
    }
  }

  lemma {:induction false} OccupiedNone(n: nat)
    ensures Occupied(seq(n, _ => Free)) == 0
  {
    if n > 0 {
      OccupiedNone(n - 1);
      assert seq<Slot>(n, _ => Free)[..n - 1] == seq(n - 1, _ => Free);
    }
  }

  function NewGroup(): Group {
    Group(seq(MAX_CHANNELS, _ => Free), 0)
  }

  /** createChannel, for a group with a free slot. */
  function Create(g: Group, id: int, k: Key): Group
    requires FirstFree(g.slots) < |g.slots|
  {
    var i := FirstFree(g.slots);
    Group(g.slots[i := Channel(k, Place(id, i))], g.live + 1)
  }

  function Destroy(g: Group, i: nat): Group
    requires i < |g.slots|
  {
    Group(g.slots[i := Free], g.live - 1)
  }

  ghost predicate GoodGroup(g: Group) {
    |g.slots| == MAX_CHANNELS && g.live == Occupied(g.slots)
  }

  // ---------------------------------------------------------------- the manager

  function FirstWithRoom(ids: seq<int>, groups: map<int, Group>): (i: nat)
    requires forall j :: 0 <= j < |ids| ==> ids[j] in groups
    ensures i <= |ids| && (i < |ids| ==> groups[ids[i]].live < MAX_CHANNELS)
    ensures forall j :: 0 <= j < i ==> groups[ids[j]].live >= MAX_CHANNELS
  {
    if ids == [] then 0
    else
      var i := FirstWithRoom(ids[..|ids| - 1], groups);
      if i == |ids| - 1 && groups[ids[i]].live >= MAX_CHANNELS then |ids| else i
  }

  function FreshId(ids: seq<int>): int {
    if ids == [] then 0 else ids[|ids| - 1] + 1
  }

  /** The manager with a group that has room, and that group's id. */
  function WithRoom(m: Manager): (r: (Manager, int))
    requires forall j :: 0 <= j < |m.ids| ==> m.ids[j] in m.groups
  {
    var i := FirstWithRoom(m.ids, m.groups);
    if i < |m.ids| then (m, m.ids[i])
    else (m.(ids := m.ids + [FreshId(m.ids)], groups := m.groups[FreshId(m.ids) := NewGroup()]), FreshId(m.ids))
  }

  function CreateIn(m: Manager, id: int, k: Key): Manager
    requires id in m.groups && FirstFree(m.groups[id].slots) < |m.groups[id].slots|
  {
    m.(groups := m.groups[id := Create(m.groups[id], id, k)], channels := m.channels[k := Place(id, FirstFree(m.groups[id].slots))])
  }

  function Without(ids: seq<int>, id: int): seq<int> {
    if ids == [] then []
    else if ids[|ids| - 1] == id then Without(ids[..|ids| - 1], id)
    else Without(ids[..|ids| - 1], id) + [ids[|ids| - 1]]
  }

  /** closeChannel for a key that has a channel: the slot is freed, an empty group erased. */
  function CloseAt(m: Manager, k: Key, p: Place): Manager
    requires p.group in m.groups && p.slot < |m.groups[p.group].slots|
  {
    var g := Destroy(m.groups[p.group], p.slot);
    if g.live == 0 then Manager(Without(m.ids, p.group), m.groups - {p.group}, m.channels - {k})
    else m.(groups := m.groups[p.group := g], channels := m.channels - {k})
  }

  // ---------------------------------------------------------------- the invariant

  ghost predicate Ascending(ids: seq<int>) {
    forall i, j :: 0 <= i < j < |ids| ==> ids[i] < ids[j]
  }

  ghost predicate Listed(m: Manager) {
    && Ascending(m.ids)
    && (forall i :: 0 <= i < |m.ids| ==> m.ids[i] in m.groups)
    && (forall g :: g in m.groups ==> g in m.ids)
  }

  /** Every key leads to its own slot ... */
  ghost predicate KeysHaveSlots(m: Manager) {
    forall k :: k in m.channels ==>
      var p := m.channels[k];
      p.group in m.groups && p.slot < |m.groups[p.group].slots| && m.groups[p.group].slots[p.slot] == Channel(k, p)
  }

  /** ... and every occupied slot back to its key. */
  ghost predicate SlotsHaveKeys(m: Manager) {
    forall g, s :: g in m.groups && 0 <= s < |m.groups[g].slots| && m.groups[g].slots[s].Channel? ==>
      var c := m.groups[g].slots[s];
      c.place == Place(g, s) && c.key in m.channels && m.channels[c.key] == c.place
  }

  ghost predicate Groups(m: Manager) {
    forall g :: g in m.groups ==> GoodGroup(m.groups[g]) && 0 <= g
  }

  ghost predicate NoEmptyGroup(m: Manager) {
    forall g :: g in m.groups ==> 1 <= m.groups[g].live
  }

  ghost predicate Structured(m: Manager) {
    Listed(m) && KeysHaveSlots(m) && SlotsHaveKeys(m) && Groups(m)
  }

  ghost predicate Inv(m: Manager) {
    Structured(m) && NoEmptyGroup(m)
  }

  /** Consequence: no two keys share a slot, and a group's count is between 1 and 16. */
  lemma {:induction false} SlotsAreNotShared(m: Manager, k: Key, k': Key)
    requires Inv(m) && k in m.channels && k' in m.channels && k != k'
    ensures m.channels[k] != m.channels[k']
    ensures 1 <= m.groups[m.channels[k].group].live <= MAX_CHANNELS
  {
    FullExactly(m.groups[m.channels[k].group].slots);
  }

  lemma {:induction false} FreshIdIsFresh(m: Manager)
    requires Listed(m) && Groups(m)
    ensures FreshId(m.ids) !in m.groups && FreshId(m.ids) >= 0
    ensures forall g :: g in m.groups ==> g < FreshId(m.ids)
  {
  }

  lemma {:induction false} WithRoomKeeps(m: Manager)
    requires Inv(m)
    ensures var (m', id) := WithRoom(m);
            Structured(m') && id in m'.groups && FirstFree(m'.groups[id].slots) < MAX_CHANNELS
            && m'.channels == m.channels
            && (forall g :: g in m'.groups && g != id ==> 1 <= m'.groups[g].live)
  {
    var (m', id) := WithRoom(m);
    if m' != m {
      NewGroupKeeps(m);
    } else {
      FullExactly(m.groups[id].slots);
    }
  }

  lemma {:induction false} NewGroupKeeps(m: Manager)
    requires Inv(m)
    ensures var id := FreshId(m.ids);
            var m' := m.(ids := m.ids + [id], groups := m.groups[id := NewGroup()]);
            Structured(m') && FirstFree(m'.groups[id].slots) < MAX_CHANNELS
  {
    FreshIdIsFresh(m);
    OccupiedNone(MAX_CHANNELS);
    FullExactly(NewGroup().slots);
  }

  lemma {:induction false} CreateInKeeps(m: Manager, id: int, k: Key)
    requires Structured(m) && k !in m.channels && id in m.groups && FirstFree(m.groups[id].slots) < MAX_CHANNELS
    requires forall g :: g in m.groups && g != id ==> 1 <= m.groups[g].live
    ensures Inv(CreateIn(m, id, k))
  {
    var g := m.groups[id];
    OccupiedUpdate(g.slots, FirstFree(g.slots), Channel(k, Place(id, FirstFree(g.slots))));
    CreateInKeys(m, id, k);
    CreateInSlots(m, id, k);
  }

  lemma {:induction false} CreateInKeys(m: Manager, id: int, k: Key)
    requires KeysHaveSlots(m) && k !in m.channels && id in m.groups && FirstFree(m.groups[id].slots) < |m.groups[id].slots|
    ensures KeysHaveSlots(CreateIn(m, id, k))
  {
  }

  lemma {:induction false} CreateInSlots(m: Manager, id: int, k: Key)
    requires SlotsHaveKeys(m) && k !in m.channels && id in m.groups && FirstFree(m.groups[id].slots) < |m.groups[id].slots|
    ensures SlotsHaveKeys(CreateIn(m, id, k))
  {
  }

  /** getOrCreateChannel */
  function Open(m: Manager, k: Key): (r: Manager)
    requires forall j :: 0 <= j < |m.ids| ==> m.ids[j] in m.groups
    requires k !in m.channels ==>
               var (m', id) := WithRoom(m); id in m'.groups && FirstFree(m'.groups[id].slots) < |m'.groups[id].slots|
  {
    if k in m.channels then m else CreateIn(WithRoom(m).0, WithRoom(m).1, k)
  }

  /** closeChannel */
  function Close(m: Manager, k: Key): Manager
    requires k in m.channels ==> m.channels[k].group in m.groups && m.channels[k].slot < |m.groups[m.channels[k].group].slots|
  {
    if k in m.channels then CloseAt(m, k, m.channels[k]) else m
  }

  /** Opening never runs into the fatal path, and gives the key a live channel of its own. */
  lemma {:induction false} OpenKeeps(m: Manager, k: Key)
    requires Inv(m)
    ensures k !in m.channels ==>
              var (m', id) := WithRoom(m); id in m'.groups && FirstFree(m'.groups[id].slots) < |m'.groups[id].slots|
    ensures Inv(Open(m, k)) && k in Open(m, k).channels
    ensures forall x :: x != k ==> (x in Open(m, k).channels <==> x in m.channels)
    ensures forall x :: x in m.channels ==> Open(m, k).channels[x] == m.channels[x]
  {
    if k !in m.channels {
      WithRoomKeeps(m);
      CreateInKeeps(WithRoom(m).0, WithRoom(m).1, k);
    }
  }

  lemma {:induction false} WithoutMembers(ids: seq<int>, id: int, x: int)
    ensures x in Without(ids, id) <==> x in ids && x != id
  {
    if ids != [] {
      WithoutMembers(ids[..|ids| - 1], id, x);
    }
  }

  lemma {:induction false} WithoutAscending(ids: seq<int>, id: int)
    requires Ascending(ids)
    ensures Ascending(Without(ids, id))
  {
    if ids != [] {
      var n := |ids| - 1;
      WithoutAscending(ids[..n], id);
      var rest := Without(ids[..n], id);
      forall i | 0 <= i < |rest| ensures rest[i] < ids[n] {
        WithoutMembers(ids[..n], id, rest[i]);
      }
    }
  }

  lemma {:induction false} CloseKeepsList(m: Manager, id: int)
    requires Listed(m) && id in m.groups
    ensures Listed(m.(ids := Without(m.ids, id), groups := m.groups - {id}))
  {
    WithoutAscending(m.ids, id);
    var ids := Without(m.ids, id);
    forall i | 0 <= i < |ids| ensures ids[i] in m.groups - {id} {
      WithoutMembers(m.ids, id, ids[i]);
    }
    forall g | g in m.groups - {id} ensures g in ids {
      WithoutMembers(m.ids, id, g);
    }
  }

  /** Freeing the slot of a key, before the group is looked at. */
  lemma {:induction false} FreeSlotKeeps(m: Manager, k: Key)
    requires Inv(m) && k in m.channels
    ensures var p := m.channels[k];
            Structured(m.(groups := m.groups[p.group := Destroy(m.groups[p.group], p.slot)], channels := m.channels - {k}))
  {
    var p := m.channels[k];
    OccupiedUpdate(m.groups[p.group].slots, p.slot, Free);
  }

  lemma {:induction false} NoneOccupied(slots: seq<Slot>, i: nat)
    requires i < |slots| && Occupied(slots) == 0
    ensures slots[i].Free?
  {
    if i < |slots| - 1 {
      NoneOccupied(slots[..|slots| - 1], i);
    }
  }

  /** Dropping an empty group. */
  lemma {:induction false} DropGroupKeeps(m: Manager, id: int)
    requires Structured(m) && id in m.groups && m.groups[id].live == 0
    ensures Structured(m.(ids := Without(m.ids, id), groups := m.groups - {id}))
  {
    CloseKeepsList(m, id);
    forall k | k in m.channels ensures m.channels[k].group != id {
      if m.channels[k].group == id {
        NoneOccupied(m.groups[id].slots, m.channels[k].slot);
      }
    }
  }

  lemma {:induction false} CloseKeeps(m: Manager, k: Key)
    requires Inv(m)
    ensures k in m.channels ==> m.channels[k].group in m.groups && m.channels[k].slot < |m.groups[m.channels[k].group].slots|
    ensures Inv(Close(m, k))
    ensures Close(m, k).channels == m.channels - {k}
  {
    if k in m.channels {
      var p := m.channels[k];
      FreeSlotKeeps(m, k);
      var freed := m.(groups := m.groups[p.group := Destroy(m.groups[p.group], p.slot)], channels := m.channels - {k});
      if freed.groups[p.group].live == 0 {
        DropGroupKeeps(freed, p.group);
        assert freed.groups - {p.group} == m.groups - {p.group};
      }
    }
  }

  // ---------------------------------------------------------------- whole runs

  datatype Op = OpenFor(key: Key) | CloseFor(key: Key)

  ghost function Do(m: Manager, op: Op): (r: Manager)
    requires Inv(m)
    ensures Inv(r)
    ensures r.channels.Keys == if op.OpenFor? then m.channels.Keys + {op.key} else m.channels.Keys - {op.key}
  {
    match op
    case OpenFor(k) => OpenKeeps(m, k); Open(m, k)
    case CloseFor(k) => CloseKeeps(m, k); Close(m, k)
  }

  /** The keys that were opened and not closed since. */
  function OpenKeys(ops: seq<Op>): set<Key> {
    if ops == [] then {}
    else
      var rest := OpenKeys(ops[..|ops| - 1]);
      match ops[|ops| - 1]
      case OpenFor(k) => rest + {k}
      case CloseFor(k) => rest - {k}
  }

  /** Over every run the invariant holds, and exactly the keys still open have a channel. */
  ghost function After(ops: seq<Op>): (m: Manager)
    ensures Inv(m)
    ensures m.channels.Keys == OpenKeys(ops)
  {
    if ops == [] then NoChannels
    else Do(After(ops[..|ops| - 1]), ops[|ops| - 1])
  }

  // ---------------------------------------------------------------- closing undoes opening

  lemma {:induction false} WithoutNew(ids: seq<int>, id: int)
    requires id !in ids
    ensures Without(ids + [id], id) == ids
  {
    assert (ids + [id])[..|ids|] == ids;
    WithoutNone(ids, id);
  }

  lemma {:induction false} WithoutNone(ids: seq<int>, id: int)
    requires id !in ids
    ensures Without(ids, id) == ids
  {
    if ids != [] {
      WithoutNone(ids[..|ids| - 1], id);
      assert ids[..|ids| - 1] + [ids[|ids| - 1]] == ids;
    }
  }

  /** A channel put into the group and taken out again. */
  lemma {:induction false} DestroyUndoesCreate(g: Group, id: int, k: Key)
    requires FirstFree(g.slots) < |g.slots|
    ensures Destroy(Create(g, id, k), FirstFree(g.slots)) == g
  {
    var i := FirstFree(g.slots);
    assert g.slots[i := Channel(k, Place(id, i))][i := Free] == g.slots;
  }

  lemma {:induction false} CloseUndoesCreateIn(m: Manager, id: int, k: Key)
    requires id in m.groups && FirstFree(m.groups[id].slots) < |m.groups[id].slots| && k !in m.channels
    ensures var c := CreateIn(m, id, k);
            CloseAt(c, k, c.channels[k]) ==
            if m.groups[id].live == 0 then Manager(Without(m.ids, id), m.groups - {id}, m.channels) else m
  {
    var c := CreateIn(m, id, k);
    DestroyUndoesCreate(m.groups[id], id, k);
    assert c.channels - {k} == m.channels;
    assert c.groups - {id} == m.groups - {id};
    assert c.groups[id := m.groups[id]] == m.groups;
  }

  /** Erasing the group made for the key, if one was made, restores the groups. */
  lemma {:induction false} DropUndoesWithRoom(m: Manager)
    requires forall j :: 0 <= j < |m.ids| ==> m.ids[j] in m.groups
    requires FreshId(m.ids) !in m.groups && NoEmptyGroup(m)
    ensures var (r, id) := WithRoom(m);
            id in r.groups && m == if r.groups[id].live == 0 then Manager(Without(r.ids, id), r.groups - {id}, m.channels) else r
  {
    var (r, id) := WithRoom(m);
    if FirstWithRoom(m.ids, m.groups) == |m.ids| {
      WithoutNew(m.ids, id);
      assert m.groups[id := NewGroup()] - {id} == m.groups;
    }
  }

  lemma {:induction false} OpenThenClose(m: Manager, k: Key)
    requires forall j :: 0 <= j < |m.ids| ==> m.ids[j] in m.groups
    requires FreshId(m.ids) !in m.groups && NoEmptyGroup(m) && k !in m.channels
    requires var (r, id) := WithRoom(m); id in r.groups && FirstFree(r.groups[id].slots) < |r.groups[id].slots|
    ensures var c := Open(m, k); CloseAt(c, k, c.channels[k]) == m
  {
    var (r, id) := WithRoom(m);
    CloseUndoesCreateIn(r, id, k);
    DropUndoesWithRoom(m);
  }

  /** Opening a channel for a new key and closing it again restores every map. */
  lemma {:induction false} CloseUndoesOpen(m: Manager, k: Key)
    requires Inv(m) && k !in m.channels
    ensures Do(Do(m, OpenFor(k)), CloseFor(k)) == m
  {
    FreshIdIsFresh(m);
    OpenKeeps(m, k);
    OpenThenClose(m, k);
  }
}
