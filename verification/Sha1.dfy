/** The incremental hash object of sha1.c. */
module Sha1 {
  import opened Bytes
  import opened Sha1Spec
  import opened Word

  newtype uint32 = x: int | 0 <= x < 0x100000000

  const SHA_SUCCESS := 0
  const SHA_NULL := 1
  const SHA_STATE_ERROR := 3

  /** Number of bytes at which the 64-bit counter of bits wraps to zero. */
  const LIMIT: nat := 0x2000000000000000

  /** What a context has been through since it was last reset. */
  datatype Phase =
    | Absorbing(msg: seq<byte>)  // accepting input
    | Finished(msg: seq<byte>)   // digest computed
    | TooLong                    // the bit counter wrapped
    | Misused                    // input arrived after the digest

  // ---------- the error state machine ----------

  /** The phase after input of data, and the code returned. */
  function InputEffect(s: Phase, data: seq<byte>): (Phase, int) {
    if data == [] then (s, SHA_SUCCESS)
    else match s
      case Absorbing(m) => (if |m| + |data| < LIMIT then Absorbing(m + data) else TooLong, SHA_SUCCESS)
      case TooLong => (TooLong, SHA_NULL)
      case _ => (Misused, SHA_STATE_ERROR)
  }

  /** The phase after a request for the digest, and the code returned. */
  function ResultEffect(s: Phase): (Phase, int) {
    match s
    case Absorbing(m) => (Finished(m), SHA_SUCCESS)
    case Finished(m) => (s, SHA_SUCCESS)
    case TooLong => (s, SHA_NULL)
    case Misused => (s, SHA_STATE_ERROR)
  }

  function InputAll(s: Phase, chunks: seq<seq<byte>>): Phase
    decreases |chunks|
  {
    if chunks == [] then s else InputAll(InputEffect(s, chunks[0]).0, chunks[1..])
  }

  /**
   However a message is cut into inputs, the context absorbs their concatenation, or wraps if it reaches the
   limit.
   */
  lemma {:induction false} AnySplit(m: seq<byte>, chunks: seq<seq<byte>>)
    requires |m| < LIMIT
    ensures InputAll(Absorbing(m), chunks)
         == if |m + Concat(chunks)| < LIMIT then Absorbing(m + Concat(chunks)) else TooLong
    decreases |chunks|
  {
    if chunks == [] {
      assert m + Concat(chunks) == m;
    } else {
      assert m + Concat(chunks) == (m + chunks[0]) + Concat(chunks[1..]);
      if chunks[0] == [] {
        assert m + chunks[0] == m;
        AnySplit(m, chunks[1..]);
      } else if |m| + |chunks[0]| < LIMIT {
        AnySplit(m + chunks[0], chunks[1..]);
      } else {
        StaysTooLong(chunks[1..]);
      }
    }
  }

  lemma {:induction false} StaysTooLong(chunks: seq<seq<byte>>)
    ensures InputAll(TooLong, chunks) == TooLong
  {
    if chunks != [] {
      StaysTooLong(chunks[1..]);
    }
  }

  /**
   The codes after any inputs: 1 once they reach the limit, for a digest and for more input; the input that reaches it
   still reports success.
   */
  lemma SplitCodes(chunks: seq<seq<byte>>, data: seq<byte>)
    ensures var s, m := InputAll(Absorbing([]), chunks), Concat(chunks);
      && InputEffect(s, data).1 == (if |m| >= 0x2000000000000000 && data != [] then 1 else 0)
      && ResultEffect(s) == if |m| < 0x2000000000000000 then (Finished(m), 0) else (TooLong, 1)
  {
    AnySplit([], chunks);
    assert [] + Concat(chunks) == Concat(chunks);
  }

  datatype Call = Input(data: seq<byte>) | Result

  function Run(s: Phase, calls: seq<Call>): Phase
    decreases |calls|
  {
    if calls == [] then s
    else Run(match calls[0] case Input(data) => InputEffect(s, data).0 case Result => ResultEffect(s).0, calls[1..])
  }

  /**
   Once a digest has been handed out, it is handed out again, unless nonempty input came in between:
   then every later request fails, whatever calls are made (short of a reset).
   */
  lemma {:induction false} AfterResult(m: seq<byte>, calls: seq<Call>)
    ensures ResultEffect(Run(Finished(m), calls))
         == if exists c :: c in calls && c.Input? && c.data != []
            then (Misused, 3) else (Finished(m), 0)
    ensures forall data: seq<byte> :: InputEffect(Run(Finished(m), calls), data).1 == if data == [] then 0 else 3
  {
    if calls != [] {
      var first := calls[0];
      assert forall c :: c in calls <==> c == first || c in calls[1..];
      if first.Input? && first.data != [] {
        StaysMisused(calls[1..]);
      } else {
        AfterResult(m, calls[1..]);
      }
    }
  }

  lemma {:induction false} StaysMisused(calls: seq<Call>)
    ensures Run(Misused, calls) == Misused
  {
    if calls != [] {
      StaysMisused(calls[1..]);
    }
  }

  /** Once a message has been too long, every request for a digest and every nonempty input fails with code 1. */
  lemma {:induction false} AfterOverflow(calls: seq<Call>, data: seq<byte>)
    ensures ResultEffect(Run(TooLong, calls)) == (TooLong, 1)
    ensures InputEffect(Run(TooLong, calls), data) == (TooLong, if data == [] then 0 else 1)
  {
    if calls != [] {
      AfterOverflow(calls[1..], data);
    }
  }

  // ---------- the context ----------

  class Context {
    const intermediateHash: array<word>
    var lengthLow: uint32
    var lengthHigh: uint32
    var index: nat
    const block: array<byte>
    var computed: bool
    var corrupted: int

    ghost var phase: Phase

    ghost predicate Valid()
      reads this, intermediateHash, block
    {
      && intermediateHash.Length == 5
      && block.Length == 64
      && index < 64
      && match phase
         case Absorbing(m) => !computed && corrupted == SHA_SUCCESS && Absorbed(m)
         case Finished(m) => computed && corrupted == SHA_SUCCESS && Chained() == Fold(INITIAL, Pad(m))
         case TooLong => !computed && corrupted == SHA_NULL
         case Misused => computed && corrupted == SHA_STATE_ERROR
    }

    ghost function Chained(): Chain
      reads intermediateHash
      requires intermediateHash.Length == 5
    {
      Chain(intermediateHash[0], intermediateHash[1], intermediateHash[2], intermediateHash[3], intermediateHash[4])
    }

    ghost function BitCount(): nat
      reads this`lengthLow, this`lengthHigh
    {
      lengthHigh as nat * 0x100000000 + lengthLow as nat
    }

    /** The buffer, the chaining words and the counters account for exactly the message m. */
    ghost predicate Absorbed(m: seq<byte>)
      reads this`lengthLow, this`lengthHigh, this`index, intermediateHash, block
      requires intermediateHash.Length == 5 && block.Length == 64
    {
      && |m| < LIMIT
      && BitCount() == 8 * |m|
      && index == |m| % 64
      && Buffered(m)
    }

    /** The buffer holds the last bytes of m, and the chaining words account for the whole blocks before them. */
    ghost predicate Buffered(m: seq<byte>)
      reads this`index, intermediateHash, block
      requires intermediateHash.Length == 5 && block.Length == 64
    {
      && index <= |m| && index <= 64 && (|m| - index) % 64 == 0
      && block[..index] == m[|m| - index..]
      && Chained() == Fold(INITIAL, m[..|m| - index])
    }

    /** A fresh context, before its first reset, is in an arbitrary state; here it starts reset. */
    constructor ()
      ensures Valid() && phase == Absorbing([])
      ensures fresh(intermediateHash) && fresh(block)
    {
      intermediateHash := new word[5];
      block := new byte[64];
      new;
      var _ := Reset();
    }

    method Reset() returns (code: int)
      requires intermediateHash.Length == 5 && block.Length == 64
      modifies this, intermediateHash
      ensures Valid() && phase == Absorbing([]) && code == SHA_SUCCESS
    {
      hide Fold, Pad;
      lengthLow, lengthHigh, index := 0, 0, 0;
      intermediateHash[0] := 0x67452301;
      intermediateHash[1] := 0xEFCDAB89;
      intermediateHash[2] := 0x98BADCFE;
      intermediateHash[3] := 0x10325476;
      intermediateHash[4] := 0xC3D2E1F0;
      computed, corrupted := false, SHA_SUCCESS;
      phase := Absorbing([]);
      NoBlocks(INITIAL);
      return SHA_SUCCESS;
    }

    method Result(digest: array?<byte>) returns (code: int)
      requires Valid()
      requires digest != null ==> digest.Length == 20 && digest != block && digest as object != intermediateHash
      modifies this, intermediateHash, block, digest
      ensures Valid()
      ensures digest == null ==> code == SHA_NULL && phase == old(phase)
      ensures digest != null ==> (phase, code) == ResultEffect(old(phase))
      ensures digest != null && code == SHA_SUCCESS ==> digest[..] == Digest(phase.msg)
      ensures digest != null && code != SHA_SUCCESS ==> digest[..] == old(digest[..])
    {
      hide Fold, Pad, ChainBytes;
      if digest == null {
        return SHA_NULL;
      }
      if corrupted != SHA_SUCCESS {
        return corrupted;
      }
      if !computed {
        ghost var m := phase.msg;
        PadMessage(m);
        for i := 0 to 64
          invariant index == 0 && !computed && corrupted == SHA_SUCCESS
          invariant Chained() == Fold(INITIAL, Pad(m))
          invariant digest[..] == old(digest[..])
          invariant phase == old(phase)
        {
          block[i] := 0;
        }
        lengthLow, lengthHigh, computed := 0, 0, true;
        phase := Finished(m);
      }
      StoreDigest(digest);
      Unfolded(phase.msg);
      return SHA_SUCCESS;
    }

    /** The last loop of Result: the chaining words, byte by byte. */
    method StoreDigest(digest: array<byte>)
      requires intermediateHash.Length == 5
      requires digest.Length == 20 && digest != block && digest as object != intermediateHash
      modifies digest
      ensures digest[..] == ChainBytes(Chained())
    {
      hide ChainBytes, Scale;
      ghost var h := Chained();
      for i := 0 to 20
        invariant Chained() == h
        invariant digest[..i] == ChainBytes(h)[..i]
      {
        DigestByte(h, i);
        assert intermediateHash[i / 4] == WordOf(h, i / 4);
        digest[i] := (intermediateHash[i / 4] as int / Scale(3 - i % 4) % 256) as byte;
        assert digest[..i + 1] == digest[..i] + [digest[i]];
      }
      assert digest[..] == digest[..20];
    }

    method Input(data: array?<byte>, length: nat) returns (code: int)
      requires Valid()
      requires data != null ==> length <= data.Length && data != block && data as object != intermediateHash
      modifies this, intermediateHash, block
      ensures Valid()
      ensures length > 0 && data == null ==> code == SHA_NULL && phase == old(phase)
      ensures length == 0 ==> code == SHA_SUCCESS && phase == old(phase)
      ensures length > 0 && data != null ==> (phase, code) == InputEffect(old(phase), data[..length])
    {
      if length == 0 {
        return SHA_SUCCESS;
      }
      if data == null {
        return SHA_NULL;
      }
      if computed {
        corrupted := SHA_STATE_ERROR;
        phase := Misused;
        return SHA_STATE_ERROR;
      }
      if corrupted != SHA_SUCCESS {
        return corrupted;
      }
      AbsorbAll(data, length);
      return SHA_SUCCESS;
    }

    /** The loop of Input. */
    method AbsorbAll(data: array<byte>, length: nat)
      requires Valid() && phase.Absorbing? && |phase.msg| < LIMIT
      requires length <= data.Length && data != block && data as object != intermediateHash
      modifies this, intermediateHash, block
      ensures Valid()
      ensures var m := old(phase).msg; phase == if |m| + length < LIMIT then Absorbing(m + data[..length]) else TooLong
    {
      hide Absorbed, Fold, Pad;
      var left, at := length, 0;
      ghost var m := phase.msg;
      assert m + data[..0] == m;
      while left > 0 && corrupted == SHA_SUCCESS
        invariant 0 <= left && at + left == length
        invariant index < 64 && !computed
        invariant |m| + at <= LIMIT
        invariant |m| + at < LIMIT ==> Absorbed(m + data[..at]) && corrupted == SHA_SUCCESS
        invariant |m| + at == LIMIT ==> corrupted == SHA_NULL
      {
        left := left - 1;
        assert m + data[..at + 1] == m + data[..at] + [data[at]];
        AbsorbByte(m + data[..at], data[at]);
        at := at + 1;
      }
      phase := if |m| + length < LIMIT then Absorbing(m + data[..length]) else TooLong;
    }

    /** One turn of the loop of Input. */
    method AbsorbByte(ghost m: seq<byte>, b: byte)
      requires intermediateHash.Length == 5 && block.Length == 64 && index < 64
      requires Absorbed(m) && corrupted == SHA_SUCCESS
      modifies this`lengthLow, this`lengthHigh, this`index, this`corrupted, intermediateHash, block
      ensures index < 64
      ensures |m| + 1 < LIMIT ==> Absorbed(m + [b]) && corrupted == SHA_SUCCESS
      ensures |m| + 1 == LIMIT ==> corrupted == SHA_NULL
    {
      hide Fold, Pad, Buffered, BitCount;
      NextIndex(|m|);
      BufferByte(m, b);
      CountByte(|m|);
      if index == 64 {
        FlushBlock(m + [b]);
      }
    }

    method BufferByte(ghost m: seq<byte>, b: byte)
      requires intermediateHash.Length == 5 && block.Length == 64 && index < 64
      requires Buffered(m)
      modifies this`index, block
      ensures index == old(index) + 1 && Buffered(m + [b])
    {
      hide Fold;
      ghost var m' := m + [b];
      ghost var whole := m[..|m| - index];
      block[index] := b;
      index := index + 1;
      assert block[..index] == m'[|m'| - index..];
      assert m'[..|m'| - index] == whole;
    }

    method FlushBlock(ghost m: seq<byte>)
      requires intermediateHash.Length == 5 && block.Length == 64 && index == 64
      requires Buffered(m)
      modifies this`index, intermediateHash
      ensures index == 0 && Buffered(m)
    {
      hide Fold, Compress;
      ghost var whole := m[..|m| - 64];
      assert block[..] == block[..64];
      FoldBlock(INITIAL, whole, block[..]);
      ProcessMessageBlock();
      assert m[..|m|] == whole + block[..] && m[|m|..] == [];
    }

    /** Adds 8 to the two-word counter of bits; reaching zero marks the context corrupted. */
    method CountByte(ghost length: nat)
      requires BitCount() == 8 * length && length < LIMIT
      modifies this`lengthLow, this`lengthHigh, this`corrupted
      ensures length + 1 < LIMIT ==> BitCount() == 8 * (length + 1) && corrupted == old(corrupted)
      ensures length + 1 == LIMIT ==> corrupted == SHA_NULL
    {
      lengthLow := ((lengthLow as int + 8) % 0x100000000) as uint32;
      if lengthLow == 0 {
        lengthHigh := ((lengthHigh as int + 1) % 0x100000000) as uint32;
        if lengthHigh == 0 {
          corrupted := SHA_NULL;
        }
      }
    }

    /** The first two loops of the block function: the word sequence W. */
    method MessageSchedule() returns (w: array<word>)
      requires block.Length == 64
      ensures fresh(w) && w[..] == Words(block[..])
    {
      hide CircularShift, Schedule, BigEndian;
      ghost var blk := block[..];
      w := new word[80];
      for t := 0 to 16
        invariant forall i :: 0 <= i < t ==> w[i] == Schedule(blk, i)
        invariant block[..] == blk
      {
        FirstWords(blk, t);
        w[t] := BigEndian(block[t * 4], block[t * 4 + 1], block[t * 4 + 2], block[t * 4 + 3]);
      }
      for t := 16 to 80
        invariant forall i :: 0 <= i < t ==> w[i] == Schedule(blk, i)
        invariant block[..] == blk
      {
        LaterWords(blk, t, w[t - 3], w[t - 8], w[t - 14], w[t - 16]);
        w[t] := CircularShift(1, w[t - 3] ^ w[t - 8] ^ w[t - 14] ^ w[t - 16]);
      }
    }

    /** The 80 rounds, in place on five local words, as four loops of 20. */
    method ProcessMessageBlock()
      requires intermediateHash.Length == 5 && block.Length == 64
      modifies this`index, intermediateHash
      ensures Chained() == Compress(old(Chained()), block[..])
      ensures index == 0
    {
      hide Plus, Step, Steps, F, K, CircularShift, Schedule, WordAt, Add, Compress;
      ghost var blk := block[..];
      ghost var h := Chained();
      ghost var ws := Words(blk);
      var w := MessageSchedule();
      NoSteps(h);
      assert ws[..0] == [];
      var a, b, c, d, e := intermediateHash[0], intermediateHash[1], intermediateHash[2], intermediateHash[3],
        intermediateHash[4];
      var temp: word;
      for t := 0 to 20
        invariant w[..] == ws && Chained() == h
        invariant Chain(a, b, c, d, e) == Steps(h, ws[..t])
      {
        NextStep(h, ws, t);
        FirstTwenty(t, a, b, c, d, e, w[t]);
        temp := Plus(Plus(Plus(Plus(CircularShift(5, a), ((b & c) | (!b & d))), e), w[t]), 0x5A827999);
        e, d, c, b, a := d, c, CircularShift(30, b), a, temp;
      }
      for t := 20 to 40
        invariant w[..] == ws && Chained() == h
        invariant Chain(a, b, c, d, e) == Steps(h, ws[..t])
      {
        NextStep(h, ws, t);
        SecondTwenty(t, a, b, c, d, e, w[t]);
        temp := Plus(Plus(Plus(Plus(CircularShift(5, a), (b ^ c ^ d)), e), w[t]), 0x6ED9EBA1);
        e, d, c, b, a := d, c, CircularShift(30, b), a, temp;
      }
      for t := 40 to 60
        invariant w[..] == ws && Chained() == h
        invariant Chain(a, b, c, d, e) == Steps(h, ws[..t])
      {
        NextStep(h, ws, t);
        ThirdTwenty(t, a, b, c, d, e, w[t]);
        temp := Plus(Plus(Plus(Plus(CircularShift(5, a), ((b & c) | (b & d) | (c & d))), e), w[t]), 0x8F1BBCDC);
        e, d, c, b, a := d, c, CircularShift(30, b), a, temp;
      }
      for t := 60 to 80
        invariant w[..] == ws && Chained() == h
        invariant Chain(a, b, c, d, e) == Steps(h, ws[..t])
      {
        NextStep(h, ws, t);
        FourthTwenty(t, a, b, c, d, e, w[t]);
        temp := Plus(Plus(Plus(Plus(CircularShift(5, a), (b ^ c ^ d)), e), w[t]), 0xCA62C1D6);
        e, d, c, b, a := d, c, CircularShift(30, b), a, temp;
      }

      assert ws[..80] == ws;
      AllSteps(h, blk);
      intermediateHash[0] := Plus(intermediateHash[0], a);
      intermediateHash[1] := Plus(intermediateHash[1], b);
      intermediateHash[2] := Plus(intermediateHash[2], c);
      intermediateHash[3] := Plus(intermediateHash[3], d);
      intermediateHash[4] := Plus(intermediateHash[4], e);
      index := 0;
    }

    /** Writes zeros into the buffer from the index up to a limit. */
    method ZeroFill(limit: nat)
      requires block.Length == 64 && index <= limit <= 64
      modifies this`index, block
      ensures index == limit
      ensures block[..limit] == old(block[..index]) + Zeros(limit - old(index))
    {
      ghost var start, kept := index, block[..index];
      while index < limit
        invariant start <= index <= limit
        invariant block[..index] == kept + Zeros(index - start)
      {
        block[index] := 0;
        index := index + 1;
        assert block[..index] == block[..index - 1] + [0];
      }
    }

    method PadMessage(ghost m: seq<byte>)
      requires intermediateHash.Length == 5 && block.Length == 64 && index < 64
      requires Absorbed(m)
      modifies this`index, intermediateHash, block
      ensures Chained() == Fold(INITIAL, Pad(m)) && index == 0
    {
      hide Fold, Pad, Compress, Length64;
      ghost var folded := PadToLength(m);
      ghost var before := block[..56];
      StoreLength();
      PadParts(m);
      assert folded + block[..] == folded + before + Length64(8 * |m|);
      FoldBlock(INITIAL, folded, block[..]);
      ProcessMessageBlock();
    }

    /** The two branches of PadMessage, leaving room for the length in the last block. */
    method PadToLength(ghost m: seq<byte>) returns (ghost folded: seq<byte>)
      requires intermediateHash.Length == 5 && block.Length == 64 && index < 64
      requires Absorbed(m)
      modifies this`index, intermediateHash, block
      ensures |folded| % 64 == 0 && Chained() == Fold(INITIAL, folded)
      ensures folded + block[..56] == m + [0x80] + Zeros(ZeroCount(|m|))
    {
      hide Fold, Compress, Zeros, ZeroCount, BitCount;
      ghost var n := index;
      folded := m[..|m| - n];
      ZeroRuns(|m|);
      if index > 55 {
        MarkAndFill(m, 64);
        assert block[..] == block[..64];
        FoldBlock(INITIAL, folded, block[..]);
        folded := folded + block[..];
        assert folded == m + [0x80] + Zeros(63 - n);
        ProcessMessageBlock();
        ZeroFill(56);
        assert block[..56] == Zeros(56);
        Regroup(m + [0x80], Zeros(63 - n), Zeros(56));
      } else {
        MarkAndFill(m, 56);
      }
    }

    /** The marker byte and a run of zeros. */
    method MarkAndFill(ghost m: seq<byte>, limit: nat)
      requires block.Length == 64 && index < limit <= 64
      requires index <= |m| && block[..index] == m[|m| - index..]
      modifies this`index, block
      ensures index == limit
      ensures m[..|m| - old(index)] + block[..limit] == m + [0x80] + Zeros(limit - 1 - old(index))
    {
      hide Zeros;
      ghost var n, whole, tail := index, m[..|m| - index], m[|m| - index..];
      assert m == whole + tail;
      block[index] := 0x80;
      index := index + 1;
      assert block[..index] == tail + [0x80];
      ZeroFill(limit);
      assert block[..limit] == tail + [0x80] + Zeros(limit - 1 - n);
    }

    method StoreLength()
      requires block.Length == 64
      modifies block
      ensures block[..] == old(block[..56]) + Length64(BitCount())
    {
      hide Length64;
      block[56] := (lengthHigh as int / 0x1000000 % 256) as byte;
      block[57] := (lengthHigh as int / 0x10000 % 256) as byte;
      block[58] := (lengthHigh as int / 0x100 % 256) as byte;
      block[59] := (lengthHigh as int % 256) as byte;
      block[60] := (lengthLow as int / 0x1000000 % 256) as byte;
      block[61] := (lengthLow as int / 0x10000 % 256) as byte;
      block[62] := (lengthLow as int / 0x100 % 256) as byte;
      block[63] := (lengthLow as int % 256) as byte;
      TwoWords(lengthHigh as nat, lengthLow as nat);
    }
  }

  /** The bytes of a 64-bit length are those of its high word, then those of its low word. */
  lemma TwoWords(high: nat, low: nat)
    requires high < 0x100000000 && low < 0x100000000
    ensures Length64(high * 0x100000000 + low)
         == [(high / 0x1000000 % 256) as byte, (high / 0x10000 % 256) as byte, (high / 0x100 % 256) as byte,
            (high % 256) as byte,
             (low / 0x1000000 % 256) as byte, (low / 0x10000 % 256) as byte, (low / 0x100 % 256) as byte,
               (low % 256) as byte]
  {
    var n := high * 0x100000000 + low;
    HighByte(high, low, 0x1000000);
    HighByte(high, low, 0x10000);
    HighByte(high, low, 0x100);
    HighByte(high, low, 1);
    LowByte(high, low, 0x1000000, 0x100);
    LowByte(high, low, 0x10000, 0x10000);
    LowByte(high, low, 0x100, 0x1000000);
    LowByte(high, low, 1, 0x100000000);
  }

  lemma HighByte(high: nat, low: nat, unit: nat)
    requires low < 0x100000000 && unit > 0
    ensures (high * 0x100000000 + low) / (unit * 0x100000000) == high / unit
  {
    var q, r := high / unit, high % unit;
    assert high == q * unit + r;
    assert high * 0x100000000 + low == q * (unit * 0x100000000) + (r * 0x100000000 + low);
    assert (r + 1) * 0x100000000 <= unit * 0x100000000;
    DivIs(high * 0x100000000 + low, unit * 0x100000000, q, r * 0x100000000 + low);
  }

  lemma LowByte(high: nat, low: nat, unit: nat, count: nat)
    requires unit > 0 && unit * count == 0x100000000 && count % 256 == 0
    ensures (high * 0x100000000 + low) / unit % 256 == low / unit % 256
  {
    var q, r := low / unit, low % unit;
    assert high * 0x100000000 + low == (high * count + q) * unit + r by {
      assert low == q * unit + r;
      assert high * 0x100000000 == high * count * unit;
    }
    DivIs(high * 0x100000000 + low, unit, high * count + q, r);
    SameRemainder(high * count, q, high * (count / 256));
  }

  lemma SameRemainder(a: nat, b: nat, k: nat)
    requires a == k * 256
    ensures (a + b) % 256 == b % 256
  {
  }

  lemma FirstTwenty(t: nat, a: word, b: word, c: word, d: word, e: word, w: word)
    requires t < 20
    ensures Step(t, w, Chain(a, b, c, d, e))
         == Chain(Plus(Plus(Plus(Plus(CircularShift(5, a), ((b & c) | (!b & d))), e), w), 0x5A827999), a,
            CircularShift(30, b), c, d)
  {
    hide CircularShift, Plus;
  }

  lemma SecondTwenty(t: nat, a: word, b: word, c: word, d: word, e: word, w: word)
    requires 20 <= t < 40
    ensures Step(t, w, Chain(a, b, c, d, e))
         == Chain(Plus(Plus(Plus(Plus(CircularShift(5, a), (b ^ c ^ d)), e), w), 0x6ED9EBA1), a, CircularShift(30, b),
            c, d)
  {
    hide CircularShift, Plus;
  }

  lemma ThirdTwenty(t: nat, a: word, b: word, c: word, d: word, e: word, w: word)
    requires 40 <= t < 60
    ensures Step(t, w, Chain(a, b, c, d, e))
         == Chain(Plus(Plus(Plus(Plus(CircularShift(5, a), ((b & c) | (b & d) | (c & d))), e), w), 0x8F1BBCDC), a,
            CircularShift(30, b), c, d)
  {
    hide CircularShift, Plus;
  }

  lemma FourthTwenty(t: nat, a: word, b: word, c: word, d: word, e: word, w: word)
    requires 60 <= t < 80
    ensures Step(t, w, Chain(a, b, c, d, e))
         == Chain(Plus(Plus(Plus(Plus(CircularShift(5, a), (b ^ c ^ d)), e), w), 0xCA62C1D6), a, CircularShift(30, b),
            c, d)
  {
    hide CircularShift, Plus;
  }

  lemma NoBlocks(h: Chain)
    ensures Fold(h, []) == h
  {
  }

  lemma PadParts(m: seq<byte>)
    ensures Pad(m) == m + [0x80] + Zeros(ZeroCount(|m|)) + Length64(8 * |m|)
  {
  }

  lemma Unfolded(m: seq<byte>)
    ensures Digest(m) == ChainBytes(Fold(INITIAL, Pad(m)))
  {
  }

  /** 256 to the power k. */
  function Scale(k: nat): nat
    requires k < 4
    ensures Scale(k) > 0
  {
    if k == 0 then 1 else if k == 1 then 0x100 else if k == 2 then 0x10000 else 0x1000000
  }

  function WordOf(h: Chain, i: nat): word
    requires i < 5
  {
    if i == 0 then h.a else if i == 1 then h.b else if i == 2 then h.c else if i == 3 then h.d else h.e
  }

  lemma DigestByte(h: Chain, i: nat)
    requires i < 20
    ensures ChainBytes(h)[i] == (WordOf(h, i / 4) as int / Scale(3 - i % 4) % 256) as byte
  {
    ByteOfChain(h, i);
    ByteOfWord(WordOf(h, i / 4), i % 4);
  }

  lemma ByteOfChain(h: Chain, i: nat)
    requires i < 20
    ensures ChainBytes(h)[i] == WordBytes(WordOf(h, i / 4))[i % 4]
  {
    hide WordBytes;
    OneOfFive(WordBytes(h.a), WordBytes(h.b), WordBytes(h.c), WordBytes(h.d), WordBytes(h.e), i);
  }

  lemma OneOfFive(a: seq<byte>, b: seq<byte>, c: seq<byte>, d: seq<byte>, e: seq<byte>, i: nat)
    requires |a| == 4 && |b| == 4 && |c| == 4 && |d| == 4 && |e| == 4 && i < 20
    ensures (a + b + c + d + e)[i]
         == (if i < 4 then a else if i < 8 then b else if i < 12 then c else if i < 16 then d else e)[i % 4]
  {
  }

  lemma ByteOfWord(w: word, k: nat)
    requires k < 4
    ensures WordBytes(w)[k] == (w as int / Scale(3 - k) % 256) as byte
  {
  }

  lemma NextIndex(length: nat)
    ensures (length + 1) % 64 == if length % 64 == 63 then 0 else length % 64 + 1
  {
  }

  /** How the zeros of the padding fall into the last one or two blocks. */
  lemma ZeroRuns(length: nat)
    ensures var n := length % 64;
      && (length - n) % 64 == 0
      && if n > 55 then Zeros(ZeroCount(length)) == Zeros(63 - n) + Zeros(56) else ZeroCount(length) == 55 - n
  {
  }
}
