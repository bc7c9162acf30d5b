/** Words of 32 bits and the operations on them: sections 2 and 3 of RFC 3174. */
module Word {
  type word = bv32

  /** The circular left shift S^n of section 3. */
  function CircularShift(bits: word, w: word): word
    requires bits <= 32
  {
    (w << bits) | (w >> (32 - bits))
  }

  /** The sum X + Y of section 3, taken modulo 2^32. */
  function Plus(x: word, y: word): word {
    x + y
  }

  /** S^n moves every bit n places up: from place n on, bit k of the result is bit k - n of the word. */
  lemma BitsMoveUp(n: word, w: word, k: word)
    requires 0 < n <= k < 32
    ensures (CircularShift(n, w) >> k) & 1 == (w >> (k - n)) & 1
  {
    hide CircularShift;
    UpperBits(n, w, k);
    ShiftedParts(n, w);
  }

  /** The top n bits come back at the bottom. */
  lemma BitsComeRound(n: word, w: word, k: word)
    requires 0 < n < 32 && k < n
    ensures (CircularShift(n, w) >> k) & 1 == (w >> (k + (32 - n))) & 1
  {
    hide CircularShift;
    LowerBits(n, w, k);
    ShiftedParts(n, w);
  }

  lemma ShiftedParts(n: word, w: word)
    requires n <= 32
    ensures CircularShift(n, w) == (w << n) | (w >> (32 - n))
  {
  }

  lemma UpperBits(n: word, w: word, k: word)
    requires 0 < n <= k < 32
    ensures (((w << n) | (w >> (32 - n))) >> k) & 1 == (w >> (k - n)) & 1
  {
  }

  lemma LowerBits(n: word, w: word, k: word)
    requires 0 < n < 32 && k < n
    ensures (((w << n) | (w >> (32 - n))) >> k) & 1 == (w >> (k + (32 - n))) & 1
  {
  }

  /** The sum is the one computed in 64 bits, less the carry out of the 32. */
  lemma PlusModulo(x: word, y: word)
    ensures Plus(x, y) as bv64 == (x as bv64 + y as bv64) & 0xFFFFFFFF
  {
  }
}
