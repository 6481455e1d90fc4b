/**
 The scan over a channel group's flag word (power-libperfmgr/aidl/ChannelGroup.cpp runChannelGroup):
 find the lowest set bit, clear it, stop at the first bit that is not a write bit.
 */
module ChannelFlags {
  const WRITE_BITS: bv32 := 16

  predicate Bit(x: bv32, k: bv32)
    requires k < 32
  {
    x & (1 << k) != 0
  }

  /** The set bits among k .. 15, ascending. */
  function WriteBits(x: bv32, k: bv32): seq<bv32>
    requires k <= WRITE_BITS
    decreases WRITE_BITS - k
  {
    if k == WRITE_BITS then []
    else if Bit(x, k) then [k] + WriteBits(x, k + 1)
    else WriteBits(x, k + 1)
  }

  /** The number of zero bits below the lowest set bit, 32 for zero. */
  function TrailingZeros(x: bv32, k: bv32): bv32
    requires k <= 32
    decreases 32 - k
  {
    if k == 32 then 32 else if Bit(x, k) then k else TrailingZeros(x, k + 1)
  }

  /** No bit below k is set. */
  predicate ClearBelow(x: bv32, k: bv32)
    requires k <= 32
  {
    if k == 32 then x == 0 else x & ((1 << k) - 1) == 0
  }

  /** z is the place of the lowest set bit, 32 for none. */
  predicate Lowest(x: bv32, z: bv32) {
    z <= 32 && ClearBelow(x, z) && (z < 32 ==> Bit(x, z))
  }

  lemma {:induction false} ClearStep(x: bv32, k: bv32)
    requires k < 32 && ClearBelow(x, k) && !Bit(x, k)
    ensures ClearBelow(x, k + 1)
  {
  }

  lemma {:induction false} ClearMeansUnset(x: bv32, k: bv32, j: bv32)
    requires j < k <= 32 && ClearBelow(x, k)
    ensures !Bit(x, j)
  {
  }

  lemma {:induction false} TrailingZerosExact(x: bv32, k: bv32)
    requires k <= 32 && ClearBelow(x, k)
    ensures Lowest(x, TrailingZeros(x, k))
    decreases 32 - k
  {
    if k < 32 && !Bit(x, k) {
      ClearStep(x, k);
      TrailingZerosExact(x, k + 1);
    }
  }

  /** Subtracting one and masking clears the lowest set bit and nothing else. */
  lemma {:induction false} DropsLowest(x: bv32, z: bv32, j: bv32)
    requires z < 32 && j < 32 && Bit(x, z) && ClearBelow(x, z)
    ensures Bit(x & (x - 1), j) <==> Bit(x, j) && j != z
    ensures x & (x - 1) < x
  {
  }

  lemma {:induction false} NothingBelow(x: bv32, k: bv32, z: bv32)
    requires k <= z <= WRITE_BITS && ClearBelow(x, z)
    ensures WriteBits(x, k) == WriteBits(x, z)
    decreases z - k
  {
    if k < z {
      ClearMeansUnset(x, z, k);
      NothingBelow(x, k + 1, z);
    }
  }

  lemma {:induction false} SameAbove(x: bv32, y: bv32, k: bv32)
    requires k <= WRITE_BITS && forall j :: k <= j < 32 ==> (Bit(x, j) <==> Bit(y, j))
    ensures WriteBits(x, k) == WriteBits(y, k)
    decreases WRITE_BITS - k
  {
    if k < WRITE_BITS {
      SameAbove(x, y, k + 1);
    }
  }

  /** One round: the lowest set bit comes first, the rest is what the cleared word still has. */
  lemma {:induction false} ScanStep(x: bv32, z: bv32)
    requires z < WRITE_BITS && Bit(x, z) && ClearBelow(x, z)
    ensures WriteBits(x, 0) == [z] + WriteBits(x & (x - 1), 0)
    ensures x & (x - 1) < x
  {
    var y := x & (x - 1);
    NothingBelow(x, 0, z);
    forall j: bv32 | z + 1 <= j < 32 ensures Bit(x, j) <==> Bit(y, j) {
      DropsLowest(x, z, j);
    }
    DropsLowest(x, z, z);
    SameAbove(x, y, z + 1);
    ClearedBelow(x, z);
    NothingBelow(y, 0, z + 1);
  }

  lemma {:induction false} ClearedBelow(x: bv32, z: bv32)
    requires z < WRITE_BITS && Bit(x, z) && ClearBelow(x, z)
    ensures ClearBelow(x & (x - 1), z + 1)
  {
  }

  lemma {:induction false} ScanEnds(x: bv32, z: bv32)
    requires WRITE_BITS <= z <= 32 && ClearBelow(x, z)
    ensures WriteBits(x, 0) == []
  {
    HighClear(x, z);
    NothingBelow(x, 0, WRITE_BITS);
  }

  lemma {:induction false} HighClear(x: bv32, z: bv32)
    requires WRITE_BITS <= z <= 32 && ClearBelow(x, z)
    ensures ClearBelow(x, WRITE_BITS)
  {
  }

  lemma {:induction false} FirstZeros(x: bv32)
    ensures Lowest(x, TrailingZeros(x, 0))
  {
    assert ClearBelow(x, 0);
    TrailingZerosExact(x, 0);
  }

  lemma {:induction false} ScanRound(x: bv32, z: bv32, visited: seq<bv32>, all: seq<bv32>)
    requires Lowest(x, z) && z < WRITE_BITS && visited + WriteBits(x, 0) == all
    ensures visited + [z] + WriteBits(x & (x - 1), 0) == all && x & (x - 1) < x
  {
    ScanStep(x, z);
    assert visited + [z] + WriteBits(x & (x - 1), 0) == visited + ([z] + WriteBits(x & (x - 1), 0));
  }

  lemma {:induction false} ScanDone(x: bv32, z: bv32, visited: seq<bv32>, all: seq<bv32>)
    requires Lowest(x, z) && z >= WRITE_BITS && visited + WriteBits(x, 0) == all
    ensures visited == all
  {
    ScanEnds(x, z);
  }

  /** The scan visits each set write bit once, in ascending order, and no other bit. */
  method VisitChannels(flags: bv32) returns (visited: seq<bv32>)
    ensures visited == WriteBits(flags, 0)
  {
    visited := [];
    var flagState := flags;
    var channel := CountTrailing(flagState);
    while channel < WRITE_BITS
      invariant Lowest(flagState, channel)
      invariant visited + WriteBits(flagState, 0) == WriteBits(flags, 0)
      decreases flagState
    {
      ScanRound(flagState, channel, visited, WriteBits(flags, 0));
      flagState := flagState & (flagState - 1);
      visited := visited + [channel];
      channel := CountTrailing(flagState);
    }
    ScanDone(flagState, channel, visited, WriteBits(flags, 0));
  }

  method CountTrailing(x: bv32) returns (z: bv32)
    ensures Lowest(x, z)
  {
    z := TrailingZeros(x, 0);
    FirstZeros(x);
  }

  /** The list of write bits holds exactly the set ones ... */
  lemma {:induction false} WriteBitsExact(x: bv32, k: bv32, j: bv32)
    requires k <= WRITE_BITS && j < WRITE_BITS
    ensures j in WriteBits(x, k) <==> k <= j && Bit(x, j)
    decreases WRITE_BITS - k
  {
    if k < WRITE_BITS {
      var rest := WriteBits(x, k + 1);
      WriteBitsExact(x, k + 1, j);
      assert j in [k] + rest <==> j == k || j in rest;
      BitOrder(k, j);
    }
  }

  lemma {:induction false} BitOrder(k: bv32, j: bv32)
    requires k < WRITE_BITS
    ensures k <= j <==> j == k || k + 1 <= j
  {
  }

  predicate Increasing(s: seq<bv32>, least: bv32) {
    s == [] || (least <= s[0] < WRITE_BITS && Increasing(s[1..], s[0] + 1))
  }

  /** ... each once, in ascending order. */
  lemma {:induction false} WriteBitsIncrease(x: bv32, least: bv32, k: bv32)
    requires least <= k <= WRITE_BITS
    ensures Increasing(WriteBits(x, k), least)
    decreases WRITE_BITS - k
  {
    if k < WRITE_BITS {
      if Bit(x, k) {
        WriteBitsIncrease(x, k + 1, k + 1);
        assert WriteBits(x, k)[1..] == WriteBits(x, k + 1);
      } else {
        WriteBitsIncrease(x, least, k + 1);
      }
    }
  }
}
