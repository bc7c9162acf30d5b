/**
 Bit-field accessors of download.c, as written.

 The source walks to a position with a shifting mask and a byte counter. `Locate` is that walk;
 `ByteOf` and `MaskOf` are its closed form. The walk differs from the layout of BEP 3 at every
 position from 8 on: position 8 has an empty mask, and position p > 8 lands where BEP 3 puts p - 1.
 */
module BitField {

  /** The byte whose only set bit is bit k, counted from the most significant one. */
  function Mask(k: nat): bv8
    requires k < 8
  {
    if k == 0 then 128 else if k == 1 then 64 else if k == 2 then 32 else if k == 3 then 16
    else if k == 4 then 8 else if k == 5 then 4 else if k == 6 then 2 else 1
  }

  function ByteOf(p: nat): nat {
    if p <= 8 then 0 else (p - 1) / 8
  }

  function MaskOf(p: nat): bv8 {
    if p < 8 then Mask(p) else if p == 8 then 0 else Mask((p - 1) % 8)
  }

  /** Number of bytes of a bit field for n pieces. */
  function FieldSize(n: nat): nat {
    if n % 8 != 0 then n / 8 + 1 else n / 8
  }

  /** Some bit of the mask is set. */
  predicate Has(b: bv8, mask: bv8) {
    b & mask != 0
  }

  predicate Holds(bits: seq<bv8>, p: nat)
    requires ByteOf(p) < |bits|
  {
    Has(bits[ByteOf(p)], MaskOf(p))
  }

  function WithBit(bits: seq<bv8>, p: nat): seq<bv8>
    requires ByteOf(p) < |bits|
  {
    bits[ByteOf(p) := bits[ByteOf(p)] | MaskOf(p)]
  }

  /** The layout of BEP 3: piece p is bit p % 8, from the high end, of byte p / 8. */
  predicate Bep3Holds(bits: seq<bv8>, p: nat)
    requires p / 8 < |bits|
  {
    Has(bits[p / 8], Mask(p % 8))
  }

  const WEIGHTS: seq<bv8> := [128, 64, 32, 16, 8, 4, 2, 1]

  /** Bits are counted from the most significant one of each byte. */
  lemma Bep3FromTheTop(bits: seq<bv8>, p: nat)
    requires p / 8 < |bits|
    ensures Bep3Holds(bits, p) <==> bits[p / 8] & WEIGHTS[p % 8] == WEIGHTS[p % 8]
  {
    OneBit(bits[p / 8], p % 8);
  }

  lemma OneBit(b: bv8, k: nat)
    requires k < 8
    ensures Has(b, Mask(k)) <==> b & WEIGHTS[k] == WEIGHTS[k]
  {
    assert Mask(k) == WEIGHTS[k];
  }

  // ---------- the loops ----------

  lemma AtZero()
    ensures ByteOf(0) == 0 && MaskOf(0) == 128
  {
  }

  lemma NextPlace(i: nat)
    ensures i != 0 && i % 8 == 0 ==> ByteOf(i + 1) == ByteOf(i) + 1 && MaskOf(i + 1) == 128
    ensures i == 0 || i % 8 != 0 ==> ByteOf(i + 1) == ByteOf(i) && MaskOf(i + 1) == MaskOf(i) >> 1
  {
    if i >= 8 && i % 8 != 0 {
      assert (i - 1) % 8 == i % 8 - 1 && (i - 1) / 8 == i / 8;
    }
  }

  method Locate(position: nat) returns (j: nat, shift: bv8)
    ensures j == ByteOf(position)
    ensures shift == MaskOf(position)
  {
    hide ByteOf, MaskOf;
    AtZero();
    shift := 128;
    j := 0;
    for i := 0 to position
      invariant j == ByteOf(i) && shift == MaskOf(i)
    {
      NextPlace(i);
      shift := shift >> 1;
      if i != 0 && i % 8 == 0 {
        j := j + 1;
        shift := 128;
      }
    }
  }

  method GetBitField(bits: seq<bv8>, position: nat) returns (r: bv8)
    requires ByteOf(position) < |bits|
    ensures r != 0 <==> Holds(bits, position)
    ensures r == 0 || r == MaskOf(position)
  {
    var j, shift := Locate(position);
    r := bits[j] & shift;
    MaskIsOneBit(bits[j], position);
  }

  method SetBitField(bits: array<bv8>, position: nat)
    requires ByteOf(position) < bits.Length
    modifies bits
    ensures bits[..] == WithBit(old(bits[..]), position)
  {
    var j, shift := Locate(position);
    bits[j] := bits[j] | shift;
  }

  // ---------- laws ----------

  lemma MaskIsOneBit(b: bv8, p: nat)
    ensures b & MaskOf(p) == 0 || b & MaskOf(p) == MaskOf(p)
  {
  }

  lemma MasksDisjoint(i: nat, j: nat)
    requires i < 8 && j < 8 && i != j
    ensures Mask(i) & Mask(j) == 0
  {
  }

  lemma SamePlace(p: nat, q: nat)
    requires p != q && p != 8 && q != 8 && ByteOf(p) == ByteOf(q)
    ensures MaskOf(p) & MaskOf(q) == 0
  {
    var i := if p < 8 then p else (p - 1) % 8;
    var j := if q < 8 then q else (q - 1) % 8;
    MasksDisjoint(i, j);
  }

  lemma OrKeepsOtherBits(b: bv8, m: bv8, m': bv8)
    requires m & m' == 0
    ensures (b | m) & m' == b & m'
  {
  }

  lemma OrSetsBit(b: bv8, m: bv8)
    ensures (b | m) & m == m
  {
  }

  lemma MaskNonzero(p: nat)
    requires p != 8
    ensures MaskOf(p) != 0
  {
  }

  lemma AfterOr(b: bv8, m: bv8, m': bv8, same: bool)
    requires if same then m == m' && m != 0 else m & m' == 0
    ensures Has(b | m, m') <==> same || Has(b, m')
  {
    if same {
      OrSetsBit(b, m);
    } else {
      OrKeepsOtherBits(b, m, m');
    }
  }

  lemma MasksOfPositions(p: nat, q: nat)
    requires p != 8 && ByteOf(p) == ByteOf(q)
    ensures if p == q then MaskOf(p) != 0 else MaskOf(p) & MaskOf(q) == 0
  {
    if p == q {
      MaskNonzero(p);
    } else if q != 8 {
      SamePlace(p, q);
    }
  }

  /** Setting any position but 8 makes exactly that position read as set. */
  lemma GetAfterSet(bits: seq<bv8>, p: nat, q: nat)
    requires ByteOf(p) < |bits| && ByteOf(q) < |bits|
    requires p != 8
    ensures Holds(WithBit(bits, p), q) <==> q == p || Holds(bits, q)
  {
    hide ByteOf, MaskOf, Has;
    var after := WithBit(bits, p);
    if ByteOf(p) == ByteOf(q) {
      MasksOfPositions(p, q);
      var b, m, m' := bits[ByteOf(p)], MaskOf(p), MaskOf(q);
      assert after[ByteOf(q)] == b | m;
      AfterOr(b, m, m', p == q);
    } else {
      assert after[ByteOf(q)] == bits[ByteOf(q)];
    }
  }

  /** Position 8 never reads as set, and setting it changes nothing. */
  lemma PositionEightIsInert(bits: seq<bv8>)
    requires 0 < |bits|
    ensures !Holds(bits, 8)
    ensures WithBit(bits, 8) == bits
  {
    assert bits[0] | 0 == bits[0];
  }

  /** Setting a position makes just that one read as set besides the others, or none if it is 8. */
  lemma FieldAfterHave(bits: seq<bv8>, p: nat, q: nat)
    requires ByteOf(p) < |bits| && ByteOf(q) < |bits|
    ensures |WithBit(bits, p)| == |bits|
    ensures Holds(WithBit(bits, p), q) <==> Holds(bits, q) || (q == p && p != 8)
  {
    hide Holds;
    if p == 8 {
      PositionEightIsInert(bits);
    } else {
      GetAfterSet(bits, p, q);
    }
  }

  /** Every piece index, and every spare position the validator probes, stays inside the field. */
  lemma InBounds(n: nat, p: nat)
    requires p < n || (n % 8 != 0 && p < 8 * FieldSize(n))
    ensures ByteOf(p) < FieldSize(n)
  {
  }

  /** The bit field of a peer that has nothing. */
  function BlankField(size: nat): seq<bv8> {
    seq(size, _ => 0)
  }

  lemma BlankHoldsNothing(size: nat, p: nat)
    requires ByteOf(p) < size
    ensures !Holds(BlankField(size), p)
  {
  }

  /** The accessors follow BEP 3 at a position if and only if the position is below 8. */
  lemma AgreesWithBep3Iff(n: nat, p: nat)
    requires p < n
    ensures (forall bits: seq<bv8> | |bits| == FieldSize(n) ::
               ByteOf(p) < |bits| && p / 8 < |bits| && (Holds(bits, p) <==> Bep3Holds(bits, p)))
       <==> p < 8
  {
    InBounds(n, p);
    if p >= 8 {
      var bits := BlankField(FieldSize(n))[p / 8 := Mask(p % 8)];
      assert Bep3Holds(bits, p);
      if p == 8 {
        PositionEightIsInert(bits);
      } else {
        assert !Holds(bits, p) by {
          if (p - 1) / 8 == p / 8 {
            MasksDisjoint(p % 8, (p - 1) % 8);
          }
        }
      }
    }
  }

  /** From position 9 on, the code reads the place that BEP 3 gives to the piece before. */
  lemma ReadsPreviousPiece(bits: seq<bv8>, p: nat)
    requires p > 8 && ByteOf(p) < |bits|
    ensures Holds(bits, p) <==> Bep3Holds(bits, p - 1)
  {
  }

  // ---------- validation of a received bit field ----------

  /** What the validator of a received field checks: no spare position reads as set. */
  predicate SpareClear(bits: seq<bv8>, n: nat)
    requires |bits| == FieldSize(n)
  {
    forall i: nat | n <= i < 8 * FieldSize(n) :: InRange(i, n) && !Holds(bits, i)
  }

  /** Position i is a spare one of a field for n pieces; then it lies inside the field. */
  predicate InRange(i: nat, n: nat)
    ensures InRange(i, n) ==> ByteOf(i) < FieldSize(n)
  {
    n <= i < 8 * FieldSize(n)
  }

  method SpareBitsClear(bits: seq<bv8>, n: nat) returns (clear: bool)
    requires |bits| == FieldSize(n)
    ensures clear <==> SpareClear(bits, n)
  {
    var i := n;
    while i % 8 != 0
      invariant n <= i <= 8 * FieldSize(n)
      invariant forall k: nat | n <= k < i :: InRange(k, n) && !Holds(bits, k)
      decreases 8 * FieldSize(n) - i
    {
      assert InRange(i, n);
      var bit := GetBitField(bits, i);
      if bit != 0 {
        return false;
      }
      i := i + 1;
    }
    assert i == 8 * FieldSize(n);
    return true;
  }

  /**
   A field laid out as BEP 3 asks, spare bits clear, passes the validator if and only if the
   piece count is at most 8, or a multiple of 8, or the sender lacks the last piece.
   */
  lemma ConformingFieldAcceptedIff(bits: seq<bv8>, n: nat)
    requires |bits| == FieldSize(n)
    requires forall i: nat | n <= i < 8 * FieldSize(n) :: !Bep3Holds(bits, i)
    ensures SpareClear(bits, n) <==> n <= 8 || n % 8 == 0 || !Bep3Holds(bits, n - 1)
  {
    if n > 8 && n % 8 != 0 {
      assert InRange(n, n);
      ReadsPreviousPiece(bits, n);
      forall i: nat | n < i < 8 * FieldSize(n)
        ensures InRange(i, n) && !Holds(bits, i)
      {
        ReadsPreviousPiece(bits, i);
      }
    } else {
      forall i: nat | n <= i < 8 * FieldSize(n)
        ensures InRange(i, n) && !Holds(bits, i)
      {
        assert i < 8 && !Bep3Holds(bits, i);
      }
    }
  }
}
