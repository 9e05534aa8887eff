/** Prefix lengths and the default broadcast address (src/ifset.c). Masks and addresses
    are host-order values. */
module Ifset {
  import opened Wire
  import opened Bits

  /** Bit positions, indexed by the residue of the bit's value modulo 37. */
  function Bpm37(r: nat): (n: int)
    requires r < 37
  {
    match r
    case 0 => 32 case 1 => 0 case 2 => 1 case 3 => 26
    case 4 => 2 case 5 => 23 case 6 => 27 case 7 => 0
    case 8 => 3 case 9 => 16 case 10 => 24 case 11 => 30
    case 12 => 28 case 13 => 11 case 14 => 0 case 15 => 13
    case 16 => 4 case 17 => 7 case 18 => 17 case 19 => 0
    case 20 => 25 case 21 => 22 case 22 => 31 case 23 => 15
    case 24 => 29 case 25 => 10 case 26 => 12 case 27 => 6
    case 28 => 0 case 29 => 21 case 30 => 14 case 31 => 9
    case 32 => 5 case 33 => 20 case 34 => 8 case 35 => 19
    case _ => 18
  }

  /** Two's complement negation of a 32-bit value. */
  function Neg(v: U32): U32 {
    if v == 0 then 0 else 0x1_0000_0000 - v
  }

  function Trailz(v: U32): (r: int) {
    Bpm37(And(Neg(v), v) % 37)
  }

  function Subnet4ToPrefixLen(sn: U32): (r: int) {
    32 - Trailz(sn)
  }

  /** The broadcast address of `ip` when the server sent none. */
  function DefaultBroadcast(ip: U32, prefixLen: nat): (r: nat) {
    Or(ip, Shr(0xffff_ffff, prefixLen))
  }

  /** The number of trailing zero bits; 32 for zero. */
  function TrailingZeros(v: nat): (n: nat) {
    if v == 0 then 32 else if v % 2 == 1 then 0 else 1 + TrailingZeros(v / 2)
  }

  lemma {:induction false} TrailingZerosIn(v: nat, w: nat)
    requires 0 < v < Pow2(w)
    ensures TrailingZeros(v) < w
  {
    if v % 2 == 0 {
      TrailingZerosIn(v / 2, w - 1);
    }
  }

  /** A w-bit number and its negation share exactly the lowest set bit. */
  lemma {:induction false} LowestBit(v: nat, w: nat)
    requires 0 < v < Pow2(w)
    ensures And(Pow2(w) - v, v) == Pow2(TrailingZeros(v))
  {
    var n := Pow2(w) - v;
    if v % 2 == 1 {
      assert n / 2 == Pow2(w - 1) - 1 - v / 2;
      AndComplement(v / 2, w - 1);
    } else {
      assert n / 2 == Pow2(w - 1) - v / 2;
      LowestBit(v / 2, w - 1);
    }
  }

  /** The table holds each bit position at the residue of the bit. */
  lemma {:induction false} Residues(n: nat)
    requires n < 32
    ensures Bpm37(Pow2(n) % 37) == n
  {
    assert Bpm37(1) == 0 && Bpm37(2) == 1;
    hide Bpm37;
    if n > 1 {
      Residues(n - 1);
      DoubledEntry(Pow2(n - 1) % 37);
      DoubledResidue(Pow2(n - 1));
    }
  }

  /** Doubling a residue moves to the next bit position. */
  lemma DoubledEntry(r: nat)
    requires r < 37 && 1 <= Bpm37(r) < 31
    ensures Bpm37(2 * r % 37) == Bpm37(r) + 1
  {
    assert 2 * r % 37 == if r <= 18 then 2 * r else 2 * r - 37;
  }

  lemma DoubledResidue(x: nat)
    ensures 2 * x % 37 == 2 * (x % 37) % 37
  {
    var q, r := x / 37, x % 37;
    if 2 * r < 37 {
      RemainderIs(2 * x, 37, 2 * q, 2 * r);
      RemainderIs(2 * r, 37, 0, 2 * r);
    } else {
      RemainderIs(2 * x, 37, 2 * q + 1, 2 * r - 37);
      RemainderIs(2 * r, 37, 1, 2 * r - 37);
    }
  }

  lemma Pow32()
    ensures Pow2(32) == 0x1_0000_0000
  {
    assert Pow2(8) == 0x100;
    assert Pow2(16) == 0x1_0000;
    assert Pow2(24) == 0x100_0000;
  }

  /** The table lookup counts trailing zeros, for every 32-bit value. */
  lemma TrailzCounts(v: U32)
    ensures Trailz(v) == TrailingZeros(v)
  {
    assert Bpm37(0) == 32;
    hide Bpm37, Pow2, And, TrailingZeros;
    if v == 0 {
      assert And(0, 0) == 0;
      assert TrailingZeros(0) == 32 by {
        ZeroHas32();
      }
    } else {
      var n := TrailingZeros(v);
      assert n < 32 && And(Neg(v), v) == Pow2(n) by {
        Pow32();
        LowestBit(v, 32);
        TrailingZerosIn(v, 32);
      }
      Residues(n);
    }
  }

  lemma ZeroHas32()
    ensures TrailingZeros(0) == 32
  {
  }

  /** The contiguous mask of p leading ones. */
  function Mask(p: nat): (m: int)
    requires p <= 32
  {
    Pow2(32) - Pow2(32 - p)
  }

  lemma {:induction false} MaskZeros(w: nat, n: nat)
    requires n < w
    ensures Pow2(n) < Pow2(w)
    ensures TrailingZeros(Pow2(w) - Pow2(n)) == n
  {
    if n > 0 {
      MaskZeros(w - 1, n - 1);
      assert (Pow2(w) - Pow2(n)) / 2 == Pow2(w - 1) - Pow2(n - 1);
    }
  }

  /** `subnet4_to_prefixlen` inverts every contiguous mask. */
  lemma PrefixLenInvertsMask(p: nat)
    requires p <= 32
    ensures 0 <= Mask(p) < 0x1_0000_0000
    ensures Subnet4ToPrefixLen(Mask(p)) == p
  {
    Pow32();
    hide Trailz, Pow2;
    if p > 0 {
      MaskZeros(32, 32 - p);
    }
    TrailzCounts(Mask(p));
  }

  ghost predicate Contiguous(mask: U32) {
    exists p: nat :: p <= 32 && mask == Mask(p)
  }

  function Not32(v: U32): U32 {
    0xffff_ffff - v
  }

  /** The default broadcast address of every address is ip | ~mask. */
  ghost predicate BroadcastsRight(mask: U32)
    requires 0 <= Subnet4ToPrefixLen(mask) <= 32
  {
    forall ip: U32 :: DefaultBroadcast(ip, Subnet4ToPrefixLen(mask)) == Or(ip, Not32(mask))
  }

  lemma PrefixLenInRange(mask: U32)
    ensures 0 <= Subnet4ToPrefixLen(mask) <= 32
    ensures Subnet4ToPrefixLen(mask) == 32 - TrailingZeros(mask)
  {
    TrailzCounts(mask);
    hide Trailz;
    if mask == 0 {
      ZeroHas32();
    } else {
      Pow32();
      TrailingZerosIn(mask, 32);
    }
  }

  /** The broadcast address of address 0 shows the mask. */
  lemma RightMeansContiguous(mask: U32)
    requires 0 <= Subnet4ToPrefixLen(mask) <= 32 && BroadcastsRight(mask)
    ensures Contiguous(mask)
  {
    var p := Subnet4ToPrefixLen(mask);
    HostBits(p);
    Pow32();
    hide Pow2, Or, Shr, Trailz, Subnet4ToPrefixLen, Mask;
    assert DefaultBroadcast(0, p) == Or(0, Not32(mask));
    OrZero(Not32(mask));
    OrZero(Shr(0xffff_ffff, p));
    assert mask == Mask(p);
  }

  lemma ContiguousMeansRight(mask: U32, q: nat)
    requires q <= 32 && mask == Mask(q)
    ensures Subnet4ToPrefixLen(mask) == q && BroadcastsRight(mask)
  {
    PrefixLenInvertsMask(q);
    HostBits(q);
    Pow32();
    hide Pow2, Or, Shr, Trailz, Subnet4ToPrefixLen, Mask;
    forall ip: U32
      ensures DefaultBroadcast(ip, q) == Or(ip, Not32(mask))
    {
      assert Shr(0xffff_ffff, q) == Not32(mask);
    }
  }

  /** The default broadcast address is ip | ~mask for every address exactly when the mask
      is contiguous. */
  lemma DefaultBroadcastIffContiguous(mask: U32)
    ensures 0 <= Subnet4ToPrefixLen(mask) <= 32
    ensures BroadcastsRight(mask) <==> Contiguous(mask)
  {
    hide Mask, BroadcastsRight, Subnet4ToPrefixLen;
    PrefixLenInRange(mask);
    if BroadcastsRight(mask) {
      RightMeansContiguous(mask);
    }
    if Contiguous(mask) {
      var q: nat :| q <= 32 && mask == Mask(q);
      ContiguousMeansRight(mask, q);
    }
  }

  lemma HostBits(p: nat)
    requires p <= 32
    ensures Shr(0xffff_ffff, p) == Pow2(32) - 1 - Mask(p)
  {
    Pow32();
    ShrOnes(32, p);
  }
}
