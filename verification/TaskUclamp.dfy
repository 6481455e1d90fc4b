/**
 The uclamp range of a task (power-libperfmgr/aidl/SessionTaskMap.cpp getTaskVoteRange, and the
 clamping of PowerSessionManager.cpp set_uclamp): the sessions linked to a task confine one range,
 one after the other, in link order.
 */
module TaskUclamp {
  import opened Basics
  import opened Votes

  /** What getTaskVoteRange looks at in a linked session. */
  datatype Session = Session(isActive: bool, isPowerEfficient: bool, votes: Table)

  /** The configured limits for power-efficient sessions; the base decides whether they apply. */
  datatype Efficiency = Unlimited | Limited(base: int, offset: int)

  const FullRange := UclampRange(UCLAMP_MIN, UCLAMP_MAX)

  /** One linked session. */
  ghost function Visit(r: UclampRange, s: Session, t: Time, e: Efficiency): UclampRange {
    if !s.isActive then r
    else
      var c := Confined(r, s.votes.cpu, t);
      if s.isPowerEfficient && e.Limited? then
        c.(uclampMax := Min(c.uclampMax, if s.votes.AllTimedOut(t) then e.base else c.uclampMin + e.offset))
      else c
  }

  ghost function VisitAll(sessions: seq<Session>, t: Time, e: Efficiency): UclampRange {
    if sessions == [] then FullRange
    else Visit(VisitAll(sessions[..|sessions| - 1], t, e), sessions[|sessions| - 1], t, e)
  }

  /** set_uclamp's clamping */
  function Clamped(r: UclampRange): UclampRange {
    var lo := Min(Max(UCLAMP_MIN, r.uclampMin), UCLAMP_MAX);
    UclampRange(lo, Min(Max(r.uclampMax, lo), UCLAMP_MAX))
  }

  /** Whatever the votes were, what is applied is a range within 0..1024. */
  lemma {:induction false} AppliedRangeIsSane(r: UclampRange)
    ensures UCLAMP_MIN <= Clamped(r).uclampMin <= Clamped(r).uclampMax <= UCLAMP_MAX
    ensures UCLAMP_MIN <= r.uclampMin <= UCLAMP_MAX ==> Clamped(r).uclampMin == r.uclampMin
    ensures UCLAMP_MIN <= r.uclampMin <= r.uclampMax <= UCLAMP_MAX ==> Clamped(r) == r
  {
  }

  // ---------------------------------------------------------------- a session seen from outside

  /** How a visit limits the max beyond the votes: not at all, by a fixed cap, or by the min reached
      so far plus the offset. */
  datatype Limit = NoLimit | Cap(cap: int) | Follow

  /** An active session's contribution: its votes' min and max, started from the full range, and its limit. */
  datatype Share = Share(lo: int, hi: int, limit: Limit)

  ghost function ShareOf(s: Session, t: Time, e: Efficiency): Share {
    var own := Confined(FullRange, s.votes.cpu, t);
    Share(own.uclampMin, own.uclampMax,
          if !(s.isPowerEfficient && e.Limited?) then NoLimit
          else if s.votes.AllTimedOut(t) then Cap(e.base)
          else Follow)
  }

  ghost function Shares(sessions: seq<Session>, t: Time, e: Efficiency): seq<Share> {
    if sessions == [] then []
    else
      var s := sessions[|sessions| - 1];
      var rest := Shares(sessions[..|sessions| - 1], t, e);
      if s.isActive then rest + [ShareOf(s, t, e)] else rest
  }

  ghost function Take(r: UclampRange, s: Share, offset: int): UclampRange {
    var lo := Max(r.uclampMin, s.lo);
    var hi := Min(r.uclampMax, s.hi);
    UclampRange(lo, match s.limit
                    case NoLimit => hi
                    case Cap(c) => Min(hi, c)
                    case Follow => Min(hi, lo + offset))
  }

  ghost function TakeAll(ss: seq<Share>, offset: int): UclampRange {
    if ss == [] then FullRange else Take(TakeAll(ss[..|ss| - 1], offset), ss[|ss| - 1], offset)
  }

  function OffsetOf(e: Efficiency): int {
    match e case Unlimited => 0 case Limited(_, o) => o
  }

  /** Confining from any start inside the full range is confining from the full range, then meeting. */
  lemma {:induction false} ConfinedFromAnywhere(start: UclampRange, cpu: map<VoteId, CpuVote>, t: Time)
    requires UCLAMP_MIN <= start.uclampMin && start.uclampMax <= UCLAMP_MAX
    ensures var own := Confined(FullRange, cpu, t);
            Confined(start, cpu, t) == UclampRange(Max(start.uclampMin, own.uclampMin), Min(start.uclampMax, own.uclampMax))
  {
    var own := Confined(FullRange, cpu, t);
    ConfinedUnique(start, cpu, t, Confined(start, cpu, t), UclampRange(Max(start.uclampMin, own.uclampMin), Min(start.uclampMax, own.uclampMax)));
  }

  lemma {:induction false} TakeAllInside(ss: seq<Share>, offset: int)
    ensures UCLAMP_MIN <= TakeAll(ss, offset).uclampMin && TakeAll(ss, offset).uclampMax <= UCLAMP_MAX
  {
    if ss != [] {
      TakeAllInside(ss[..|ss| - 1], offset);
    }
  }

  lemma {:induction false} VisitsAreShares(sessions: seq<Session>, t: Time, e: Efficiency)
    ensures VisitAll(sessions, t, e) == TakeAll(Shares(sessions, t, e), OffsetOf(e))
  {
    if sessions != [] {
      var n := |sessions| - 1;
      VisitsAreShares(sessions[..n], t, e);
      var ss := Shares(sessions[..n], t, e);
      var r := TakeAll(ss, OffsetOf(e));
      TakeAllInside(ss, OffsetOf(e));
      if sessions[n].isActive {
        ConfinedFromAnywhere(r, sessions[n].votes.cpu, t);
        assert (ss + [ShareOf(sessions[n], t, e)])[..|ss|] == ss;
      }
    }
  }

  // ---------------------------------------------------------------- what the shares determine together

  /** The largest min among the shares, at least 0. */
  ghost function Top(ss: seq<Share>): int {
    if ss == [] then UCLAMP_MIN else Max(Top(ss[..|ss| - 1]), ss[|ss| - 1].lo)
  }

  ghost function OwnCeiling(s: Share): int {
    if s.limit.Cap? then Min(s.hi, s.limit.cap) else s.hi
  }

  /** The smallest max and cap among the shares, at most 1024. */
  ghost function Ceiling(ss: seq<Share>): int {
    if ss == [] then UCLAMP_MAX else Min(Ceiling(ss[..|ss| - 1]), OwnCeiling(ss[|ss| - 1]))
  }

  ghost predicate HasFollow(ss: seq<Share>) {
    exists i :: 0 <= i < |ss| && ss[i].limit.Follow?
  }

  ghost function Floor(s: Share): int {
    Max(UCLAMP_MIN, s.lo)
  }

  ghost predicate IsLowestFollow(ss: seq<Share>, m: int) {
    && (exists i :: 0 <= i < |ss| && ss[i].limit.Follow? && Floor(ss[i]) == m)
    && (forall i :: 0 <= i < |ss| && ss[i].limit.Follow? ==> m <= Floor(ss[i]))
  }

  ghost predicate SameElements<T(!new)>(a: seq<T>, b: seq<T>) {
    forall x :: x in a <==> x in b
  }

  lemma {:induction false} TopBounds(ss: seq<Share>)
    ensures UCLAMP_MIN <= Top(ss)
    ensures forall i :: 0 <= i < |ss| ==> ss[i].lo <= Top(ss)
    ensures Top(ss) == UCLAMP_MIN || exists i :: 0 <= i < |ss| && ss[i].lo == Top(ss)
  {
    if ss != [] {
      TopBounds(ss[..|ss| - 1]);
    }
  }

  lemma {:induction false} CeilingBounds(ss: seq<Share>)
    ensures Ceiling(ss) <= UCLAMP_MAX
    ensures forall i :: 0 <= i < |ss| ==> Ceiling(ss) <= OwnCeiling(ss[i])
    ensures Ceiling(ss) == UCLAMP_MAX || exists i :: 0 <= i < |ss| && OwnCeiling(ss[i]) == Ceiling(ss)
  {
    if ss != [] {
      CeilingBounds(ss[..|ss| - 1]);
    }
  }

  lemma {:induction false} SameTop(a: seq<Share>, b: seq<Share>)
    requires SameElements(a, b)
    ensures Top(a) <= Top(b)
  {
    TopBounds(a);
    TopBounds(b);
    if Top(a) != UCLAMP_MIN {
      var i :| 0 <= i < |a| && a[i].lo == Top(a);
      assert a[i] in b;
    }
  }

  lemma {:induction false} SameCeiling(a: seq<Share>, b: seq<Share>)
    requires SameElements(a, b)
    ensures Ceiling(b) <= Ceiling(a)
  {
    CeilingBounds(a);
    CeilingBounds(b);
    if Ceiling(a) != UCLAMP_MAX {
      var i :| 0 <= i < |a| && OwnCeiling(a[i]) == Ceiling(a);
      assert a[i] in b;
    }
  }

  lemma {:induction false} SameFollow(a: seq<Share>, b: seq<Share>, m: int)
    requires SameElements(a, b)
    ensures HasFollow(a) ==> HasFollow(b)
    ensures IsLowestFollow(a, m) ==> IsLowestFollow(b, m)
  {
    if HasFollow(a) {
      var i :| 0 <= i < |a| && a[i].limit.Follow?;
      assert a[i] in b;
    }
    if IsLowestFollow(a, m) {
      var i :| 0 <= i < |a| && a[i].limit.Follow? && Floor(a[i]) == m;
      assert a[i] in b;
      forall j | 0 <= j < |b| && b[j].limit.Follow? ensures m <= Floor(b[j]) {
        assert b[j] in a;
      }
    }
  }

  lemma {:induction false} LowestFollowExists(ss: seq<Share>) returns (m: int)
    requires HasFollow(ss)
    ensures IsLowestFollow(ss, m) && m <= Top(ss)
    decreases |ss|
  {
    var n := |ss| - 1;
    TopBounds(ss);
    if HasFollow(ss[..n]) {
      m := LowestFollowExists(ss[..n]);
      if ss[n].limit.Follow? && Floor(ss[n]) < m {
        m := Floor(ss[n]);
      }
      assert forall i :: 0 <= i < n ==> ss[..n][i] == ss[i];
    } else {
      assert forall i :: 0 <= i < n ==> ss[..n][i] == ss[i];
      m := Floor(ss[n]);
    }
  }

  // ---------------------------------------------------------------- the result, in any order

  lemma {:induction false} MinIsTop(ss: seq<Share>, offset: int)
    ensures TakeAll(ss, offset).uclampMin == Top(ss)
  {
    if ss != [] {
      MinIsTop(ss[..|ss| - 1], offset);
    }
  }

  /** Without a following session the max is the ceiling. */
  lemma {:induction false} MaxWithoutFollow(ss: seq<Share>, offset: int)
    requires !HasFollow(ss)
    ensures TakeAll(ss, offset).uclampMax == Ceiling(ss)
  {
    if ss != [] {
      var n := |ss| - 1;
      assert forall i :: 0 <= i < n ==> ss[..n][i] == ss[i];
      MaxWithoutFollow(ss[..n], offset);
    }
  }

  lemma {:induction false} MaxAtMost(ss: seq<Share>, offset: int)
    ensures TakeAll(ss, offset).uclampMax <= Ceiling(ss)
    ensures HasFollow(ss) ==> TakeAll(ss, offset).uclampMax <= Top(ss) + offset
  {
    if ss != [] {
      var n := |ss| - 1;
      assert forall i :: 0 <= i < n ==> ss[..n][i] == ss[i];
      MaxAtMost(ss[..n], offset);
      MinIsTop(ss, offset);
      if HasFollow(ss) && !ss[n].limit.Follow? {
        assert HasFollow(ss[..n]);
      }
    }
  }

  lemma {:induction false} MaxAtLeast(ss: seq<Share>, offset: int, m: int)
    requires forall i :: 0 <= i < |ss| && ss[i].limit.Follow? ==> m <= Floor(ss[i])
    ensures TakeAll(ss, offset).uclampMax >= Min(Ceiling(ss), m + offset)
  {
    if ss != [] {
      var n := |ss| - 1;
      assert forall i :: 0 <= i < n ==> ss[..n][i] == ss[i];
      MaxAtLeast(ss[..n], offset, m);
      MinIsTop(ss[..n], offset);
      TopBounds(ss[..n]);
    }
  }

  /** A following session visited first limits the max by its own votes alone. */
  lemma {:induction false} FollowFirst(ss: seq<Share>, offset: int)
    requires ss != [] && ss[0].limit.Follow?
    ensures TakeAll(ss, offset).uclampMax <= Floor(ss[0]) + offset
  {
    var n := |ss| - 1;
    if n > 0 {
      FollowFirst(ss[..n], offset);
    } else {
      assert ss[..0] == [];
    }
  }

  /** With the session of the largest min visited first, following sessions limit the max least. */
  lemma {:induction false} TopFirst(ss: seq<Share>, offset: int)
    requires ss != [] && Floor(ss[0]) == Top(ss)
    ensures TakeAll(ss, offset).uclampMax == if HasFollow(ss) then Min(Ceiling(ss), Top(ss) + offset) else Ceiling(ss)
  {
    var n := |ss| - 1;
    TopBounds(ss);
    MinIsTop(ss, offset);
    if n > 0 {
      var rest := ss[..n];
      assert forall i :: 0 <= i < n ==> rest[i] == ss[i];
      TopBounds(rest);
      TopFirst(rest, offset);
      assert HasFollow(ss) <==> HasFollow(rest) || ss[n].limit.Follow?;
    } else {
      assert ss[..0] == [];
      assert HasFollow(ss) <==> ss[0].limit.Follow?;
    }
  }

  // ---------------------------------------------------------------- the theorems about linked sessions

  lemma {:induction false} SharesElements(sessions: seq<Session>, t: Time, e: Efficiency, x: Share)
    ensures x in Shares(sessions, t, e) <==> exists s :: s in sessions && s.isActive && ShareOf(s, t, e) == x
  {
    if sessions != [] {
      var n := |sessions| - 1;
      SharesElements(sessions[..n], t, e, x);
      assert sessions == sessions[..n] + [sessions[n]];
    }
  }

  lemma {:induction false} PermutedShares(a: seq<Session>, b: seq<Session>, t: Time, e: Efficiency)
    requires SameElements(a, b)
    ensures SameElements(Shares(a, t, e), Shares(b, t, e))
  {
    forall x ensures x in Shares(a, t, e) <==> x in Shares(b, t, e) {
      SharesElements(a, t, e, x);
      SharesElements(b, t, e, x);
    }
  }

  /** The min that a task gets: the largest min of the votes in range of its active sessions. */
  ghost predicate IsLargestMin(sessions: seq<Session>, t: Time, m: int) {
    && UCLAMP_MIN <= m
    && (forall s, id :: s in sessions && s.isActive && Counts(s.votes.cpu, id, t) ==> s.votes.cpu[id].uclamp.uclampMin <= m)
    && (m == UCLAMP_MIN
        || exists s, id :: s in sessions && s.isActive && Counts(s.votes.cpu, id, t) && s.votes.cpu[id].uclamp.uclampMin == m)
  }

  /** MIN.  It is that largest min, whatever the link order and the power-efficient flags. */
  lemma {:induction false} TaskMinExact(sessions: seq<Session>, t: Time, e: Efficiency)
    ensures IsLargestMin(sessions, t, VisitAll(sessions, t, e).uclampMin)
  {
    if sessions != [] {
      var n := |sessions| - 1;
      TaskMinExact(sessions[..n], t, e);
      var r, s := VisitAll(sessions[..n], t, e), sessions[n];
      assert sessions == sessions[..n] + [s];
      if s.isActive {
        var c := Confined(r, s.votes.cpu, t);
        assert IsConfined(r, s.votes.cpu, t, c);
      }
    }
  }

  lemma {:induction false} LargestMinUnique(a: seq<Session>, b: seq<Session>, t: Time, m: int, m': int)
    requires SameElements(a, b) && IsLargestMin(a, t, m) && IsLargestMin(b, t, m')
    ensures m == m'
  {
  }

  /** ... so the applied min does not depend on the order of the links. */
  lemma {:induction false} AppliedMinOrderFree(a: seq<Session>, b: seq<Session>, t: Time, e: Efficiency, e': Efficiency)
    requires SameElements(a, b)
    ensures Clamped(VisitAll(a, t, e)).uclampMin == Clamped(VisitAll(b, t, e')).uclampMin
  {
    TaskMinExact(a, t, e);
    TaskMinExact(b, t, e');
    LargestMinUnique(a, b, t, VisitAll(a, t, e).uclampMin, VisitAll(b, t, e').uclampMin);
  }

  /** When the max cannot depend on the order: no active session follows, or the ceiling binds
      before any of them, or the lowest of them already has the largest min. */
  ghost predicate OrderFree(ss: seq<Share>, offset: int) {
    HasFollow(ss) ==>
      forall m :: IsLowestFollow(ss, m) ==> Ceiling(ss) <= m + offset || m == Top(ss)
  }

  ghost function ToFront<T>(s: seq<T>, k: nat): seq<T>
    requires k < |s|
  {
    [s[k]] + s[..k] + s[k + 1..]
  }

  lemma {:induction false} ToFrontPermutes<T(!new)>(s: seq<T>, k: nat)
    requires k < |s|
    ensures multiset(ToFront(s, k)) == multiset(s)
    ensures SameElements(ToFront(s, k), s)
  {
    assert s == s[..k] + [s[k]] + s[k + 1..];
    PermutationsShareElements(ToFront(s, k), s);
  }

  lemma {:induction false} PermutationsShareElements<T(!new)>(a: seq<T>, b: seq<T>)
    requires multiset(a) == multiset(b)
    ensures SameElements(a, b)
  {
    forall x ensures x in a <==> x in b {
      assert x in a <==> x in multiset(a);
      assert x in b <==> x in multiset(b);
    }
  }

  lemma {:induction false} FirstShare(sessions: seq<Session>, t: Time, e: Efficiency)
    requires sessions != [] && sessions[0].isActive
    ensures Shares(sessions, t, e) != [] && Shares(sessions, t, e)[0] == ShareOf(sessions[0], t, e)
  {
    var n := |sessions| - 1;
    if n > 0 {
      FirstShare(sessions[..n], t, e);
    } else {
      assert sessions[..0] == [];
    }
  }

  /** Some order of the links in which the session with this share is visited first. */
  lemma {:induction false} VisitFirst(sessions: seq<Session>, t: Time, e: Efficiency, x: Share) returns (p: seq<Session>)
    requires x in Shares(sessions, t, e)
    ensures multiset(p) == multiset(sessions)
    ensures SameElements(Shares(p, t, e), Shares(sessions, t, e))
    ensures Shares(p, t, e) != [] && Shares(p, t, e)[0] == x
  {
    SharesElements(sessions, t, e, x);
    var s :| s in sessions && s.isActive && ShareOf(s, t, e) == x;
    var k :| 0 <= k < |sessions| && sessions[k] == s;
    p := ToFront(sessions, k);
    ToFrontPermutes(sessions, k);
    PermutedShares(p, sessions, t, e);
    FirstShare(p, t, e);
  }

  lemma {:induction false} OrderFreeMax(ss: seq<Share>, offset: int) returns (m: int)
    requires OrderFree(ss, offset)
    ensures forall ss' :: SameElements(ss', ss) ==> TakeAll(ss', offset).uclampMax == m
  {
    if HasFollow(ss) {
      var low := LowestFollowExists(ss);
      m := Min(Ceiling(ss), low + offset);
      forall ss' | SameElements(ss', ss) ensures TakeAll(ss', offset).uclampMax == m {
        SameTop(ss', ss);
        SameTop(ss, ss');
        SameCeiling(ss', ss);
        SameCeiling(ss, ss');
        SameFollow(ss, ss', low);
        MaxAtMost(ss', offset);
        MaxAtLeast(ss', offset, low);
      }
    } else {
      m := Ceiling(ss);
      forall ss' | SameElements(ss', ss) ensures TakeAll(ss', offset).uclampMax == m {
        SameCeiling(ss', ss);
        SameCeiling(ss, ss');
        SameFollow(ss', ss, 0);
        MaxWithoutFollow(ss', offset);
      }
    }
  }

  /** MAX.  The pre-clamp max is the same in every order of the links exactly when OrderFree holds. */
  lemma {:induction false} TaskMaxOrderExact(sessions: seq<Session>, t: Time, e: Efficiency)
    ensures (forall p :: multiset(p) == multiset(sessions) ==> VisitAll(p, t, e).uclampMax == VisitAll(sessions, t, e).uclampMax)
        <==> OrderFree(Shares(sessions, t, e), OffsetOf(e))
  {
    if OrderFree(Shares(sessions, t, e), OffsetOf(e)) {
      OrderFreeSuffices(sessions, t, e);
    } else {
      var p, q := OrderMatters(sessions, t, e);
      assert multiset(p) == multiset(sessions) && multiset(q) == multiset(sessions);
    }
  }

  lemma {:induction false} OrderFreeSuffices(sessions: seq<Session>, t: Time, e: Efficiency)
    requires OrderFree(Shares(sessions, t, e), OffsetOf(e))
    ensures forall p :: multiset(p) == multiset(sessions) ==> VisitAll(p, t, e).uclampMax == VisitAll(sessions, t, e).uclampMax
  {
    var ss := Shares(sessions, t, e);
    var m := OrderFreeMax(ss, OffsetOf(e));
    VisitsAreShares(sessions, t, e);
    assert SameElements(ss, ss);
    forall p | multiset(p) == multiset(sessions) ensures VisitAll(p, t, e).uclampMax == m {
      PermutationsShareElements(p, sessions);
      PermutedShares(p, sessions, t, e);
      VisitsAreShares(p, t, e);
    }
  }

  /** Otherwise, two orders with different results. */
  lemma {:induction false} OrderMatters(sessions: seq<Session>, t: Time, e: Efficiency) returns (p: seq<Session>, q: seq<Session>)
    requires !OrderFree(Shares(sessions, t, e), OffsetOf(e))
    ensures multiset(p) == multiset(sessions) && multiset(q) == multiset(sessions)
    ensures VisitAll(p, t, e).uclampMax < VisitAll(q, t, e).uclampMax
  {
    var ss, offset := Shares(sessions, t, e), OffsetOf(e);
    var low :| IsLowestFollow(ss, low) && !(Ceiling(ss) <= low + offset || low == Top(ss));
    var i :| 0 <= i < |ss| && ss[i].limit.Follow? && Floor(ss[i]) == low;
    TopBounds(ss);
    var j :| 0 <= j < |ss| && ss[j].lo == Top(ss);
    p := VisitFirst(sessions, t, e, ss[i]);
    q := VisitFirst(sessions, t, e, ss[j]);
    FollowFirst(Shares(p, t, e), offset);
    TopAbove(ss, Shares(q, t, e), offset);
    VisitsAreShares(p, t, e);
    VisitsAreShares(q, t, e);
  }

  lemma {:induction false} TopAbove(ss: seq<Share>, qs: seq<Share>, offset: int)
    requires SameElements(qs, ss) && HasFollow(ss) && qs != [] && qs[0].lo == Top(ss)
    ensures TakeAll(qs, offset).uclampMax == Min(Ceiling(ss), Top(ss) + offset)
  {
    SameTop(ss, qs);
    SameTop(qs, ss);
    SameCeiling(ss, qs);
    SameCeiling(qs, ss);
    SameFollow(ss, qs, 0);
    TopBounds(qs);
    TopFirst(qs, offset);
  }

  /** In particular no order matters while no active linked session is power-efficient. */
  lemma {:induction false} NoEfficientSessionsOrderFree(sessions: seq<Session>, t: Time, e: Efficiency)
    requires forall s :: s in sessions && s.isActive ==> !s.isPowerEfficient
    ensures OrderFree(Shares(sessions, t, e), OffsetOf(e))
  {
    var ss := Shares(sessions, t, e);
    forall i | 0 <= i < |ss| ensures !ss[i].limit.Follow? {
      SharesElements(sessions, t, e, ss[i]);
    }
  }

  /** It happens: an efficient session without a min of its own, and one that asks for 500. */
  lemma {:induction false} OrderMattersExample()
    ensures var follows := Session(true, true, Table(map[0 := CpuVote(VoteRange(true, 0, 100), FullRange)], map[]));
            var asks := Session(true, false, Table(map[0 := CpuVote(VoteRange(true, 0, 100), UclampRange(500, UCLAMP_MAX))], map[]));
            var e := Limited(200, 100);
            && VisitAll([follows, asks], 10, e).uclampMax == 100
            && VisitAll([asks, follows], 10, e).uclampMax == 600
            && !OrderFree(Shares([follows, asks], 10, e), OffsetOf(e))
  {
    var follows := Session(true, true, Table(map[0 := CpuVote(VoteRange(true, 0, 100), FullRange)], map[]));
    var asks := Session(true, false, Table(map[0 := CpuVote(VoteRange(true, 0, 100), UclampRange(500, UCLAMP_MAX))], map[]));
    var e := Limited(200, 100);
    VisitTwo(follows, asks, 10, e);
    VisitTwo(asks, follows, 10, e);
    OneVoteConfines(FullRange, VoteRange(true, 0, 100), FullRange, 10);
    OneVoteConfines(UclampRange(0, 100), VoteRange(true, 0, 100), UclampRange(500, UCLAMP_MAX), 10);
    OneVoteConfines(FullRange, VoteRange(true, 0, 100), UclampRange(500, UCLAMP_MAX), 10);
    OneVoteConfines(UclampRange(500, UCLAMP_MAX), VoteRange(true, 0, 100), FullRange, 10);
    assert multiset([asks, follows]) == multiset([follows, asks]);
    TaskMaxOrderExact([follows, asks], 10, e);
  }

  lemma {:induction false} VisitTwo(a: Session, b: Session, t: Time, e: Efficiency)
    ensures VisitAll([a, b], t, e) == Visit(Visit(FullRange, a, t, e), b, t, e)
  {
    assert [a, b][..1] == [a] && [a][..0] == [];
    assert VisitAll([a], t, e) == Visit(FullRange, a, t, e);
  }

  /** One vote in range confines a range to the larger min and the smaller max. */
  lemma {:induction false} OneVoteConfines(start: UclampRange, r: VoteRange, u: UclampRange, t: Time)
    requires r.active && r.IsTimeInRange(t)
    ensures Confined(start, map[0 := CpuVote(r, u)], t)
         == UclampRange(Max(start.uclampMin, u.uclampMin), Min(start.uclampMax, u.uclampMax))
  {
    var cpu := map[0 := CpuVote(r, u)];
    var c := UclampRange(Max(start.uclampMin, u.uclampMin), Min(start.uclampMax, u.uclampMax));
    assert Counts(cpu, 0, t);
    assert IsConfined(start, cpu, t, c);
    ConfinedUnique(start, cpu, t, Confined(start, cpu, t), c);
  }
}
