/**
 * lib/bitmask.c: a 64-bit mask manipulated through `1 << pos`, where the literal has type `int`.
 *
 * A machine word is represented exactly by the set of its 1-bits, so `|`, `&` and `~` are union,
 * intersection and complement.  ISO C11 section 6.5.7 leaves the shift undefined for counts of
 * 32 and more and for a result that does not fit.  The model follows what gcc emits on x86-64:
 * the count is taken modulo 32, `1 << 31` is the most negative `int`, and the result is
 * sign-extended to 64 bits.
 */
module Bitmask {
  /** The 1-bits of a 32-bit `int`. */
  type Int32 = s: set<nat> | forall b :: b in s ==> b < 32

  /** The 1-bits of a `uint64_t`. */
  type Word64 = s: set<nat> | forall b :: b in s ==> b < 64

  predicate Between(lo: nat, b: nat, hi: nat) {
    lo <= b < hi
  }

  /** The positions from `lo` up to but not including `hi`. */
  function AllBits(lo: nat, hi: nat): set<nat> {
    set b: nat | b < hi && Between(lo, b, hi)
  }

  /** `1 << pos`. */
  function ShiftedOne(pos: nat): Int32 {
    {pos % 32}
  }

  /** `~x` for an `int`. */
  function Complement(x: Int32): Int32 {
    AllBits(0, 32) - x
  }

  /** Conversion of an `int` to `uint64_t`: the sign bit 31 is copied to bits 32..63. */
  function Widen(x: Int32): Word64 {
    if 31 in x then x + AllBits(32, 64) else x
  }

  /** The mask after `set_bit(&mask, pos, val)`. */
  function WithBit(mask: Word64, pos: nat, val: bool): Word64 {
    if val then mask + Widen(ShiftedOne(pos)) else mask * Widen(Complement(ShiftedOne(pos)))
  }

  /** `is_set(&mask, pos)`. */
  predicate IsSet(mask: Word64, pos: nat) {
    mask * Widen(ShiftedOne(pos)) != {}
  }

  /** Bits 31..63 move together: sign extension writes them all at once. */
  predicate TopBitsAgree(mask: Word64) {
    forall b: nat :: 31 < b < 64 ==> (b in mask <==> 31 in mask)
  }

  /** On any mask, `is_set` reads the bit at the position's residue and, for residue 31, the upper half too. */
  lemma IsSetReads(mask: Word64, pos: nat)
    ensures IsSet(mask, pos) <==>
            pos % 32 in mask || (pos % 32 == 31 && exists b: nat :: b in mask && 32 <= b)
  {
    var r := pos % 32;
    if r in mask {
      assert r in mask * Widen(ShiftedOne(pos));
    } else if r == 31 && exists b: nat :: b in mask && 32 <= b {
      var b: nat :| b in mask && 32 <= b;
      assert b in mask * Widen(ShiftedOne(pos));
    } else {
      assert mask * Widen(ShiftedOne(pos)) == {};
    }
  }

  /** On a uniform mask, `is_set` reads the bit at the position's residue. */
  lemma IsSetReadsResidue(mask: Word64, pos: nat)
    requires TopBitsAgree(mask)
    ensures IsSet(mask, pos) <==> pos % 32 in mask
  {
    IsSetReads(mask, pos);
    hide IsSet;
  }

  /**
   * One `set_bit` seen through `is_set`: it changes the positions with the same residue modulo
   * 32, and only those; the sign-extended half of the mask stays uniform.
   */
  lemma SetBitThenIsSet(mask: Word64, p: nat, val: bool, q: nat)
    requires TopBitsAgree(mask)
    ensures TopBitsAgree(WithBit(mask, p, val))
    ensures IsSet(WithBit(mask, p, val), q) == if q % 32 == p % 32 then val else IsSet(mask, q)
  {
    IsSetReadsResidue(mask, q);
    IsSetReadsResidue(WithBit(mask, p, val), q);
  }

  class Mask {
    var data: Word64

    constructor ()
      ensures data == {}
    {
      data := {};
    }

    /** `set_bit`: afterwards `is_set` answers `val` at this position's residue and is unchanged elsewhere. */
    method SetBit(pos: nat, val: bool)
      requires TopBitsAgree(data)
      modifies this
      ensures data == WithBit(old(data), pos, val) && TopBitsAgree(data)
      ensures forall q: nat :: IsSet(data, q) == if q % 32 == pos % 32 then val else IsSet(old(data), q)
    {
      ghost var before := data;
      if val {
        data := data + Widen(ShiftedOne(pos));
      } else {
        data := data * Widen(Complement(ShiftedOne(pos)));
      }
      forall q: nat
        ensures IsSet(data, q) == if q % 32 == pos % 32 then val else IsSet(before, q)
      {
        SetBitThenIsSet(before, pos, val, q);
      }
      SetBitThenIsSet(before, pos, val, 0);
    }
  }

  /** One call of `set_bit`. */
  datatype Call = Call(pos: nat, val: bool)

  /** The mask after a history of calls, starting from zero. */
  function MaskAfter(calls: seq<Call>): Word64 {
    if calls == [] then {}
    else WithBit(MaskAfter(calls[..|calls| - 1]), calls[|calls| - 1].pos, calls[|calls| - 1].val)
  }

  /** What the same history means for a set of positions. */
  function SetAfter(calls: seq<Call>): set<nat> {
    if calls == [] then {}
    else
      var before, last := SetAfter(calls[..|calls| - 1]), calls[|calls| - 1];
      if last.val then before + {last.pos} else before - {last.pos}
  }

  predicate PositionsBelow(calls: seq<Call>, n: nat) {
    forall c :: c in calls ==> c.pos < n
  }

  /** Refinement: on positions 0..31, every history of `set_bit` calls behaves as a set of positions. */
  lemma {:induction false} MaskRefinesSet(calls: seq<Call>, q: nat)
    requires PositionsBelow(calls, 32) && q < 32
    ensures IsSet(MaskAfter(calls), q) <==> q in SetAfter(calls)
    ensures TopBitsAgree(MaskAfter(calls))
  {
    if calls == [] {
    } else {
      var before, last := calls[..|calls| - 1], calls[|calls| - 1];
      assert last in calls;
      MaskRefinesSet(before, q);
      SetBitThenIsSet(MaskAfter(before), last.pos, last.val, q);
    }
  }

  /** Do all histories on `n` positions behave as a set of positions? */
  ghost predicate BehavesAsSet(n: nat) {
    forall calls: seq<Call>, q: nat ::
      PositionsBelow(calls, n) && q < n ==> (IsSet(MaskAfter(calls), q) <==> q in SetAfter(calls))
  }

  /** Position 32 reads back what was written at position 0. */
  lemma Alias()
    ensures IsSet(MaskAfter([Call(0, true)]), 32) && 32 !in SetAfter([Call(0, true)])
  {
    var calls := [Call(0, true)];
    assert calls[..0] == [];
    SetBitThenIsSet({}, 0, true, 32);
    assert MaskAfter(calls) == WithBit({}, 0, true);
    assert SetAfter(calls) == {0};
  }

  /**
   * lib/args.h allows 64 workers, but the mask keeps them apart only for 32: from the 33rd on,
   * position p answers for position p - 32.
   */
  lemma MaskCapacityIs32(n: nat)
    ensures BehavesAsSet(n) <==> n <= 32
  {
    if n <= 32 {
      forall calls: seq<Call>, q: nat | PositionsBelow(calls, n) && q < n
        ensures IsSet(MaskAfter(calls), q) <==> q in SetAfter(calls)
      {
        assert PositionsBelow(calls, 32);
        MaskRefinesSet(calls, q);
      }
    } else {
      Alias();
      var calls := [Call(0, true)];
      assert PositionsBelow(calls, n);
      assert IsSet(MaskAfter(calls), 32) != (32 in SetAfter(calls));
    }
  }
}
