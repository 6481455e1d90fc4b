/**
 The votes of one power-hint session (power-libperfmgr/aidl/UClampVoter.h and .cpp).
 */
module Votes {
  import opened Basics

  const UCLAMP_MIN := 0
  const UCLAMP_MAX := 1024

  type VoteId = int
  type Time = int

  const CPU_VOTE_DEFAULT: VoteId := 0
  const CPU_LOAD_UP: VoteId := 1
  const CPU_LOAD_RESET: VoteId := 2
  const CPU_LOAD_RESUME: VoteId := 3
  const VOTE_POWER_EFFICIENCY: VoteId := 4
  const GPU_LOAD_UP: VoteId := 5
  const GPU_LOAD_DOWN: VoteId := 6
  const GPU_LOAD_RESET: VoteId := 7
  const GPU_CAPACITY: VoteId := 8

  predicate IsGpuVote(id: VoteId) {
    id == GPU_CAPACITY || id == GPU_LOAD_UP || id == GPU_LOAD_DOWN || id == GPU_LOAD_RESET
  }

  datatype VoteRange = VoteRange(active: bool, startTime: Time, durationNs: int) {
    function Timeout(): Time {
      startTime + durationNs
    }

    predicate IsTimeInRange(t: Time) {
      active && startTime <= t && Timeout() >= t
    }
  }

  datatype UclampRange = UclampRange(uclampMin: int, uclampMax: int)

  datatype CpuVote = CpuVote(range: VoteRange, uclamp: UclampRange)

  datatype GpuVote = GpuVote(range: VoteRange, capacity: int)

  // ---------------------------------------------------------------- a session's table of votes

  datatype Table = Table(cpu: map<VoteId, CpuVote>, gpu: map<VoteId, GpuVote>) {
    /** The timing of a vote, where the table for its kind has one. */
    predicate Has(id: VoteId) {
      if IsGpuVote(id) then id in gpu else id in cpu
    }

    function Range(id: VoteId): VoteRange
      requires Has(id)
    {
      if IsGpuVote(id) then gpu[id].range else cpu[id].range
    }

    predicate IsActive(id: VoteId) {
      Has(id) && Range(id).active
    }

    /** voteTimeout: the clock's origin for a vote that does not exist. */
    function Timeout(id: VoteId): Time {
      if Has(id) then Range(id).Timeout() else 0
    }

    function WithRange(id: VoteId, r: VoteRange): Table
      requires Has(id)
    {
      if IsGpuVote(id) then this.(gpu := gpu[id := gpu[id].(range := r)])
      else this.(cpu := cpu[id := cpu[id].(range := r)])
    }

    function AddCpu(id: VoteId, v: CpuVote): Table {
      if IsGpuVote(id) then this else this.(cpu := cpu[id := v])
    }

    function AddGpu(id: VoteId, v: GpuVote): Table {
      if IsGpuVote(id) then this.(gpu := gpu[id := v]) else this
    }

    function SetUse(id: VoteId, active: bool): Table {
      if Has(id) then WithRange(id, Range(id).(active := active)) else this
    }

    function UpdateDuration(id: VoteId, durationNs: int): Table {
      if Has(id) then WithRange(id, Range(id).(durationNs := durationNs)) else this
    }

    predicate AllTimedOut(t: Time) {
      && (forall id :: id in gpu ==> !gpu[id].range.IsTimeInRange(t))
      && (forall id :: id in cpu ==> !cpu[id].range.IsTimeInRange(t))
    }
  }

  const NoVotes := Table(map[], map[])

  /** Changing one vote's timing leaves the timing of the others. */
  lemma {:induction false} WithRangeExact(v: Table, id: VoteId, r: VoteRange, other: VoteId)
    requires v.Has(id)
    ensures v.WithRange(id, r).Has(other) == v.Has(other)
    ensures v.Has(other) ==> v.WithRange(id, r).Range(other) == if other == id then r else v.Range(other)
  {
  }

  // ---------------------------------------------------------------- confining a range

  /** confine */
  function Confine(r: UclampRange, v: CpuVote, t: Time): UclampRange {
    if !v.range.IsTimeInRange(t) then r
    else UclampRange(Max(r.uclampMin, v.uclamp.uclampMin), Min(r.uclampMax, v.uclamp.uclampMax))
  }

  predicate Counts(cpu: map<VoteId, CpuVote>, id: VoteId, t: Time) {
    id in cpu && cpu[id].range.IsTimeInRange(t)
  }

  /** r is the largest min and the smallest max among the start value and the votes in range. */
  ghost predicate IsConfined(start: UclampRange, cpu: map<VoteId, CpuVote>, t: Time, r: UclampRange) {
    && start.uclampMin <= r.uclampMin && r.uclampMax <= start.uclampMax
    && (forall id :: Counts(cpu, id, t) ==> cpu[id].uclamp.uclampMin <= r.uclampMin && r.uclampMax <= cpu[id].uclamp.uclampMax)
    && (r.uclampMin == start.uclampMin || exists id :: Counts(cpu, id, t) && cpu[id].uclamp.uclampMin == r.uclampMin)
    && (r.uclampMax == start.uclampMax || exists id :: Counts(cpu, id, t) && cpu[id].uclamp.uclampMax == r.uclampMax)
  }

  lemma {:induction false} ConfinedUnique(start: UclampRange, cpu: map<VoteId, CpuVote>, t: Time, r: UclampRange, r': UclampRange)
    requires IsConfined(start, cpu, t, r) && IsConfined(start, cpu, t, r')
    ensures r == r'
  {
  }

  lemma {:induction false} ConfineOneMore(start: UclampRange, done: map<VoteId, CpuVote>, t: Time, r: UclampRange, id: VoteId, v: CpuVote)
    requires IsConfined(start, done, t, r) && id !in done
    ensures IsConfined(start, done[id := v], t, Confine(r, v, t))
  {
    var all, r' := done[id := v], Confine(r, v, t);
    assert forall k :: Counts(done, k, t) ==> Counts(all, k, t) && all[k] == done[k];
    assert Counts(all, id, t) <==> v.range.IsTimeInRange(t);
    if r'.uclampMin != start.uclampMin {
      if r'.uclampMin != r.uclampMin {
        assert Counts(all, id, t) && all[id].uclamp.uclampMin == r'.uclampMin;
      } else {
        var k :| Counts(done, k, t) && done[k].uclamp.uclampMin == r.uclampMin;
        assert Counts(all, k, t);
      }
    }
    if r'.uclampMax != start.uclampMax {
      if r'.uclampMax != r.uclampMax {
        assert Counts(all, id, t) && all[id].uclamp.uclampMax == r'.uclampMax;
      } else {
        var k :| Counts(done, k, t) && done[k].uclamp.uclampMax == r.uclampMax;
        assert Counts(all, k, t);
      }
    }
  }

  /** getUclampRange, visiting the votes in some order. */
  ghost function Confined(start: UclampRange, cpu: map<VoteId, CpuVote>, t: Time): (r: UclampRange)
    ensures IsConfined(start, cpu, t, r)
    decreases |cpu|
  {
    if forall id :: id !in cpu then start
    else
      var id :| id in cpu;
      var rest := cpu - {id};
      assert |rest| < |cpu| by { assert rest.Keys == cpu.Keys - {id}; }
      assert rest[id := cpu[id]] == cpu;
      ConfineOneMore(start, rest, t, Confined(start, rest, t), id, cpu[id]);
      Confine(Confined(start, rest, t), cpu[id], t)
  }

  // ---------------------------------------------------------------- the class

  class VoteTable {
    var cpuVotes: map<VoteId, CpuVote>
    var gpuVotes: map<VoteId, GpuVote>

    ghost function View(): Table
      reads this
    {
      Table(cpuVotes, gpuVotes)
    }

    constructor ()
      ensures View() == NoVotes
    {
      cpuVotes, gpuVotes := map[], map[];
    }

    method AddCpuVote(id: VoteId, v: CpuVote)
      modifies this
      ensures View() == old(View()).AddCpu(id, v)
    {
      if !IsGpuVote(id) {
        cpuVotes := cpuVotes[id := v];
      }
    }

    method AddGpuVote(id: VoteId, v: GpuVote)
      modifies this
      ensures View() == old(View()).AddGpu(id, v)
    {
      if IsGpuVote(id) {
        gpuVotes := gpuVotes[id := v];
      }
    }

    method SetUseVote(id: VoteId, active: bool) returns (found: bool)
      modifies this
      ensures found == old(View()).Has(id)
      ensures View() == old(View()).SetUse(id, active)
    {
      if IsGpuVote(id) {
        if id !in gpuVotes {
          return false;
        }
        gpuVotes := gpuVotes[id := gpuVotes[id].(range := gpuVotes[id].range.(active := active))];
        return true;
      }
      if id !in cpuVotes {
        return false;
      }
      cpuVotes := cpuVotes[id := cpuVotes[id].(range := cpuVotes[id].range.(active := active))];
      return true;
    }

    method UpdateVoteDuration(id: VoteId, durationNs: int)
      modifies this
      ensures View() == old(View()).UpdateDuration(id, durationNs)
    {
      if IsGpuVote(id) {
        if id in gpuVotes {
          gpuVotes := gpuVotes[id := gpuVotes[id].(range := gpuVotes[id].range.(durationNs := durationNs))];
        }
        return;
      }
      if id in cpuVotes {
        cpuVotes := cpuVotes[id := cpuVotes[id].(range := cpuVotes[id].range.(durationNs := durationNs))];
      }
    }

    /** The map is unordered: whatever order the votes come in, the range is the same. */
    method GetUclampRange(start: UclampRange, t: Time) returns (r: UclampRange)
      ensures IsConfined(start, cpuVotes, t, r) && r == Confined(start, cpuVotes, t)
    {
      r := start;
      var rest := cpuVotes.Keys;
      ghost var done: map<VoteId, CpuVote> := map[];
      while exists id :: id in rest
        invariant rest <= cpuVotes.Keys
        invariant done == map id | id in cpuVotes && id !in rest :: cpuVotes[id]
        invariant IsConfined(start, done, t, r)
        decreases rest
      {
        var id :| id in rest;
        ConfineOneMore(start, done, t, r, id, cpuVotes[id]);
        r := Confine(r, cpuVotes[id], t);
        rest := rest - {id};
        done := done[id := cpuVotes[id]];
      }
      assert done == cpuVotes;
      ConfinedUnique(start, cpuVotes, t, r, Confined(start, cpuVotes, t));
    }
  }
}
