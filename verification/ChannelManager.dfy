/**
 Channel counts, packed map keys and flag masks (power-libperfmgr/aidl/ChannelManager.h,
 SessionChannel.cpp), and the manager's methods (ChannelManager.cpp).
 */
module ChannelManager {
  import opened Basics
  import opened Channels

  // ---------------------------------------------------------------- counting channels

  predicate Present(ids: seq<int>, groups: map<int, Group>) {
    forall j :: 0 <= j < |ids| ==> ids[j] in groups
  }

  function Total(ids: seq<int>, groups: map<int, Group>): int
    requires Present(ids, groups)
  {
    if ids == [] then 0 else Total(ids[..|ids| - 1], groups) + groups[ids[|ids| - 1]].live
  }

  lemma {:induction false} TotalElsewhere(ids: seq<int>, groups: map<int, Group>, groups': map<int, Group>)
    requires forall j :: 0 <= j < |ids| ==> ids[j] in groups && ids[j] in groups' && groups[ids[j]].live == groups'[ids[j]].live
    ensures Total(ids, groups) == Total(ids, groups')
  {
    if ids != [] {
      TotalElsewhere(ids[..|ids| - 1], groups, groups');
    }
  }

  lemma {:induction false} TotalUpdate(ids: seq<int>, groups: map<int, Group>, id: int, g: Group)
    requires Ascending(ids) && id in ids && Present(ids, groups)
    ensures Total(ids, groups[id := g]) == Total(ids, groups) - groups[id].live + g.live
  {
    var n := |ids| - 1;
    if ids[n] == id {
      TotalElsewhere(ids[..n], groups, groups[id := g]);
    } else {
      TotalUpdate(ids[..n], groups, id, g);
    }
  }

  lemma {:induction false} WithoutIsPresent(ids: seq<int>, groups: map<int, Group>, id: int)
    requires Present(ids, groups)
    ensures Present(Without(ids, id), groups - {id})
  {
    var rest := Without(ids, id);
    forall j | 0 <= j < |rest| ensures rest[j] in groups - {id} {
      WithoutMembers(ids, id, rest[j]);
    }
  }

  lemma {:induction false} TotalWithout(ids: seq<int>, groups: map<int, Group>, id: int)
    requires Present(ids, groups) && Present(Without(ids, id), groups - {id})
    requires id in groups && groups[id].live == 0
    ensures Total(Without(ids, id), groups - {id}) == Total(ids, groups)
  {
    if ids != [] {
      var n := |ids| - 1;
      WithoutIsPresent(ids[..n], groups, id);
      TotalWithout(ids[..n], groups, id);
      if ids[n] != id {
        var rest := Without(ids[..n], id);
        assert (rest + [ids[n]])[..|rest|] == rest;
      }
    }
  }

  ghost predicate Counted(m: Manager) {
    Present(m.ids, m.groups) && Total(m.ids, m.groups) == |m.channels.Keys|
  }

  lemma {:induction false} OneMoreKey(channels: map<Key, Place>, k: Key, p: Place)
    ensures |channels[k := p].Keys| == |channels.Keys| + if k in channels then 0 else 1
    ensures |(channels - {k}).Keys| == |channels.Keys| - if k in channels then 1 else 0
  {
    assert channels[k := p].Keys == channels.Keys + {k};
    assert (channels - {k}).Keys == channels.Keys - {k};
  }

  lemma {:induction false} CreateCounts(m: Manager, id: int, k: Key)
    requires Ascending(m.ids) && id in m.ids && id in m.groups && Counted(m)
    requires k !in m.channels && FirstFree(m.groups[id].slots) < |m.groups[id].slots|
    ensures Counted(CreateIn(m, id, k))
  {
    TotalUpdate(m.ids, m.groups, id, Create(m.groups[id], id, k));
    OneMoreKey(m.channels, k, Place(id, FirstFree(m.groups[id].slots)));
  }

  lemma {:induction false} TotalWithEmpty(ids: seq<int>, groups: map<int, Group>, id: int, g: Group)
    requires Present(ids, groups) && id !in groups && g.live == 0
    ensures Present(ids + [id], groups[id := g])
    ensures Total(ids + [id], groups[id := g]) == Total(ids, groups)
  {
    assert (ids + [id])[..|ids|] == ids;
    TotalElsewhere(ids, groups, groups[id := g]);
  }

  lemma {:induction false} WithRoomCounts(m: Manager)
    requires Counted(m) && FreshId(m.ids) !in m.groups
    ensures Counted(WithRoom(m).0)
  {
    TotalWithEmpty(m.ids, m.groups, FreshId(m.ids), NewGroup());
  }

  lemma {:induction false} DropCounts(ids: seq<int>, groups: map<int, Group>, id: int, g: Group)
    requires Present(ids, groups) && id in groups && g.live == 0 && Present(ids, groups[id := g])
    ensures Present(Without(ids, id), groups - {id})
    ensures Total(Without(ids, id), groups - {id}) == Total(ids, groups[id := g])
  {
    WithoutIsPresent(ids, groups, id);
    assert groups[id := g] - {id} == groups - {id};
    TotalWithout(ids, groups[id := g], id);
  }

  lemma {:induction false} CloseCounts(m: Manager, k: Key, p: Place)
    requires Ascending(m.ids) && p.group in m.ids && p.group in m.groups && Counted(m)
    requires k in m.channels && p.slot < |m.groups[p.group].slots|
    ensures Counted(CloseAt(m, k, p))
  {
    var g := Destroy(m.groups[p.group], p.slot);
    TotalUpdate(m.ids, m.groups, p.group, g);
    OneMoreKey(m.channels, k, p);
    if g.live == 0 {
      DropCounts(m.ids, m.groups, p.group, g);
    }
  }

  lemma {:induction false} OpCounts(m: Manager, op: Op)
    requires Inv(m) && Counted(m)
    ensures Counted(Do(m, op))
  {
    if op.OpenFor? && op.key !in m.channels {
      FreshIdIsFresh(m);
      WithRoomKeeps(m);
      WithRoomCounts(m);
      CreateCounts(WithRoom(m).0, WithRoom(m).1, op.key);
    } else if op.CloseFor? && op.key in m.channels {
      CloseCounts(m, op.key, m.channels[op.key]);
    }
  }

  /** After any run, the groups' counts add up to the number of keys still open. */
  lemma {:induction false} CountIsExact(ops: seq<Op>)
    ensures Counted(After(ops)) && Total(After(ops).ids, After(ops).groups) == |OpenKeys(ops)|
  {
    if ops != [] {
      CountIsExact(ops[..|ops| - 1]);
      OpCounts(After(ops[..|ops| - 1]), ops[|ops| - 1]);
    }
  }

  // ---------------------------------------------------------------- packed keys and masks

  function Unsigned32(x: int): int {
    if x < 0 then x + 0x1_0000_0000 else x
  }

  /** The 64-bit number that two 32-bit fields share storage with, first field in the low half. */
  function Pack(first: int, second: int): int {
    Unsigned32(first) + 0x1_0000_0000 * second
  }

  function Second(packed: int): int {
    packed / 0x1_0000_0000
  }

  function First(packed: int): int {
    var low := packed % 0x1_0000_0000;
    if low < 0x8000_0000 then low else low - 0x1_0000_0000
  }

  lemma {:induction false} PackRoundTrip(first: int, second: int)
    requires Int32(first) && Int32(second)
    ensures First(Pack(first, second)) == first && Second(Pack(first, second)) == second
    ensures -0x8000_0000_0000_0000 <= Pack(first, second) < 0x8000_0000_0000_0000
  {
    var u := Unsigned32(first);
    assert 0 <= u < 0x1_0000_0000;
    assert Pack(first, second) / 0x1_0000_0000 == second && Pack(first, second) % 0x1_0000_0000 == u;
  }

  /** So distinct pairs have distinct keys, and a key tells its pair. */
  lemma {:induction false} PackInjective(a: int, b: int, a': int, b': int)
    requires Int32(a) && Int32(b) && Int32(a') && Int32(b')
    ensures Pack(a, b) == Pack(a', b') <==> a == a' && b == b'
  {
    PackRoundTrip(a, b);
    PackRoundTrip(a', b');
  }

  function WriteMask(offset: bv32): bv32
    requires offset < 16
  {
    1 << offset
  }

  function ReadMask(offset: bv32): bv32
    requires offset < 16
  {
    1 << (offset + 16)
  }

  /** The masks of a group's channels never overlap. */
  lemma {:induction false} MasksAreDisjoint(a: bv32, b: bv32)
    requires a < 16 && b < 16
    ensures WriteMask(a) != 0 && ReadMask(a) != 0
    ensures a != b ==> WriteMask(a) & WriteMask(b) == 0 && ReadMask(a) & ReadMask(b) == 0
    ensures WriteMask(a) & ReadMask(b) == 0
  {
  }

  // ---------------------------------------------------------------- the manager's methods

  class Registry {
    var ids: seq<int>
    var groups: map<int, Group>
    var channels: map<Key, Place>

    ghost function View(): Manager
      reads this
    {
      Manager(ids, groups, channels)
    }

    constructor ()
      ensures View() == NoChannels && Inv(View())
    {
      ids, groups, channels := [], map[], map[];
    }

    /** The search for a group with room, in id order; -1 when all are full. */
    method FindGroup() returns (groupId: int)
      requires Present(ids, groups) && forall j :: 0 <= j < |ids| ==> 0 <= ids[j]
      ensures var i := FirstWithRoom(ids, groups);
              groupId == if i < |ids| then ids[i] else -1
    {
      groupId := -1;
      var i := 0;
      while i < |ids|
        invariant 0 <= i <= |ids|
        invariant forall j :: 0 <= j < i ==> groups[ids[j]].live >= MAX_CHANNELS
      {
        if groups[ids[i]].live < MAX_CHANNELS {
          groupId := ids[i];
          return;
        }
        i := i + 1;
      }
    }

    /** The scan of a group's slots. */
    method FindSlot(slots: seq<Slot>) returns (slot: nat)
      ensures slot == FirstFree(slots)
    {
      slot := 0;
      while slot < |slots| && slots[slot].Channel?
        invariant slot <= |slots|
        invariant forall j :: 0 <= j < slot ==> slots[j].Channel?
      {
        slot := slot + 1;
      }
    }

    method AddGroup() returns (groupId: int)
      requires Present(ids, groups)
      modifies this`ids, this`groups
      ensures groupId == FreshId(old(ids))
      ensures ids == old(ids) + [groupId] && groups == old(groups)[groupId := NewGroup()]
    {
      groupId := if ids == [] then 0 else ids[|ids| - 1] + 1;
      ids := ids + [groupId];
      groups := groups[groupId := NewGroup()];
    }

    /** The scan for a slot can never come out empty-handed here. */
    method CreateChannel(groupId: int, key: Key) returns (place: Place)
      requires groupId in groups && FirstFree(groups[groupId].slots) < |groups[groupId].slots|
      modifies this`groups, this`channels
      ensures View() == CreateIn(old(View()), groupId, key) && place == channels[key]
    {
      var g := groups[groupId];
      var slot := FindSlot(g.slots);
      place := Place(groupId, slot);
      groups := groups[groupId := Group(g.slots[slot := Channel(key, place)], g.live + 1)];
      channels := channels[key := place];
    }

    method CreateSomewhere(key: Key) returns (place: Place)
      requires Present(ids, groups) && forall j :: 0 <= j < |ids| ==> 0 <= ids[j]
      requires var (m, id) := WithRoom(View()); id in m.groups && FirstFree(m.groups[id].slots) < |m.groups[id].slots|
      modifies this
      ensures View() == CreateIn(WithRoom(old(View())).0, WithRoom(old(View())).1, key) && place == channels[key]
    {
      var groupId := FindGroup();
      if groupId == -1 {
        groupId := AddGroup();
      }
      place := CreateChannel(groupId, key);
    }

    /** Finds the key's channel or makes one. */
    method GetOrCreate(key: Key) returns (channel: Slot)
      requires Inv(View())
      modifies this
      ensures View() == Do(old(View()), OpenFor(key)) && Inv(View())
      ensures key in channels && channel == Channel(key, channels[key])
    {
      OpenKeeps(View(), key);
      if key in channels {
        var p := channels[key];
        return groups[p.group].slots[p.slot];
      }
      var place := CreateSomewhere(key);
      channel := groups[place.group].slots[place.slot];
    }

    /** Frees the key's slot; fails exactly for a key without channel. */
    method CloseChannel(key: Key) returns (ok: bool)
      requires Inv(View())
      modifies this
      ensures View() == Do(old(View()), CloseFor(key)) && Inv(View())
      ensures ok <==> key in old(channels)
    {
      CloseKeeps(View(), key);
      if key !in channels {
        return false;
      }
      var p := channels[key];
      if p.group !in groups {
        return false;
      }
      if groups[p.group].slots[p.slot].Free? {
        return false;
      }
      RemoveChannel(key, p);
      return true;
    }

    method RemoveChannel(key: Key, p: Place)
      requires p.group in groups && p.slot < |groups[p.group].slots|
      modifies this
      ensures View() == CloseAt(old(View()), key, p)
    {
      var g := Group(groups[p.group].slots[p.slot := Free], groups[p.group].live - 1);
      groups := groups[p.group := g];
      if g.live == 0 {
        DropSameGroup(old(groups), p.group, g);
        EraseGroup(p.group);
      }
      channels := channels - {key};
    }

    method EraseGroup(id: int)
      modifies this`ids, this`groups
      ensures ids == Without(old(ids), id) && groups == old(groups) - {id}
    {
      var left := [];
      var i := 0;
      while i < |ids|
        invariant 0 <= i <= |ids| && left == Without(ids[..i], id)
        invariant ids == old(ids) && groups == old(groups)
      {
        assert ids[..i + 1][..i] == ids[..i];
        if ids[i] != id {
          left := left + [ids[i]];
        }
        i := i + 1;
      }
      assert ids[..i] == ids;
      ids := left;
      groups := groups - {id};
    }

    method ChannelCount() returns (out: int)
      requires Present(ids, groups)
      ensures out == Total(ids, groups)
    {
      out := 0;
      var i := 0;
      while i < |ids|
        invariant 0 <= i <= |ids| && out == Total(ids[..i], groups)
      {
        assert ids[..i + 1][..i] == ids[..i];
        out := out + groups[ids[i]].live;
        i := i + 1;
      }
      assert ids[..i] == ids;
    }
  }

  lemma {:induction false} DropSameGroup(groups: map<int, Group>, id: int, g: Group)
    ensures groups[id := g] - {id} == groups - {id}
  {
  }
}
