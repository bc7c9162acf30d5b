/** The one-shot definition of SHA-1: sections 3 to 6.1 of RFC 3174. */
module Sha1Spec {
  import opened Bytes
  import opened Word

  /** The five chaining words H0..H4, or the five buffers A..E. */
  datatype Chain = Chain(a: word, b: word, c: word, d: word, e: word)

  const INITIAL := Chain(0x67452301, 0xEFCDAB89, 0x98BADCFE, 0x10325476, 0xC3D2E1F0)

  /** The four bytes of a word stand in it from the top down. */
  lemma BigEndianBytes(b0: byte, b1: byte, b2: byte, b3: byte)
    ensures var w := BigEndian(b0, b1, b2, b3);
      && w >> 24 == b0 as word && (w >> 16) & 0xFF == b1 as word
      && (w >> 8) & 0xFF == b2 as word && w & 0xFF == b3 as word
  {
    ByteFits(b0);
    ByteFits(b1);
    ByteFits(b2);
    ByteFits(b3);
    Packed(b0 as word, b1 as word, b2 as word, b3 as word);
  }

  lemma ByteFits(b: byte)
    ensures b as word < 256
  {
  }

  lemma Packed(x0: word, x1: word, x2: word, x3: word)
    requires x0 < 256 && x1 < 256 && x2 < 256 && x3 < 256
    ensures var w := (x0 << 24) | (x1 << 16) | (x2 << 8) | x3;
      && w >> 24 == x0 && (w >> 16) & 0xFF == x1 && (w >> 8) & 0xFF == x2 && w & 0xFF == x3
  {
  }

  // ---------- section 4: padding ----------

  function Zeros(n: nat): seq<byte> {
    seq(n, _ => 0)
  }

  /** The number of zero bytes between the 0x80 marker and the length. */
  function ZeroCount(length: nat): nat {
    (119 - length % 64) % 64
  }

  /** The padded length is a whole number of blocks. */
  lemma WholeBlocks(length: nat)
    ensures (length + 1 + ZeroCount(length) + 8) % 64 == 0
  {
    var r := length % 64;
    assert length == length / 64 * 64 + r;
    if r <= 55 {
      assert length + 1 + ZeroCount(length) + 8 == (length / 64 + 1) * 64;
    } else {
      assert length + 1 + ZeroCount(length) + 8 == (length / 64 + 2) * 64;
    }
  }

  /** The low 64 bits of n, most significant byte first. */
  function Length64(n: nat): seq<byte> {
    [(n / 0x100000000000000 % 256) as byte, (n / 0x1000000000000 % 256) as byte,
     (n / 0x10000000000 % 256) as byte, (n / 0x100000000 % 256) as byte,
     (n / 0x1000000 % 256) as byte, (n / 0x10000 % 256) as byte,
     (n / 0x100 % 256) as byte, (n % 256) as byte]
  }

  function Pad(m: seq<byte>): (r: seq<byte>)
    ensures |r| % 64 == 0
  {
    WholeBlocks(|m|);
    m + [0x80] + Zeros(ZeroCount(|m|)) + Length64(8 * |m|)
  }

  // ---------- section 5: functions and constants ----------

  function F(t: nat, b: word, c: word, d: word): word
    requires t < 80
  {
    if t < 20 then (b & c) | (!b & d)
    else if t < 40 then b ^ c ^ d
    else if t < 60 then (b & c) | (b & d) | (c & d)
    else b ^ c ^ d
  }

  function K(t: nat): word
    requires t < 80
  {
    if t < 20 then 0x5A827999 else if t < 40 then 0x6ED9EBA1 else if t < 60 then 0x8F1BBCDC else 0xCA62C1D6
  }

  // ---------- section 6.1: the digest ----------

  /** Four bytes as a word, most significant first. */
  function BigEndian(b0: byte, b1: byte, b2: byte, b3: byte): word {
    ((b0 as word) << 24) | ((b1 as word) << 16) | ((b2 as word) << 8) | (b3 as word)
  }

  function WordAt(block: seq<byte>, t: nat): word
    requires |block| == 64 && t < 16
  {
    BigEndian(block[t * 4], block[t * 4 + 1], block[t * 4 + 2], block[t * 4 + 3])
  }

  /** The message schedule W(t). */
  function Schedule(block: seq<byte>, t: nat): word
    requires |block| == 64 && t < 80
  {
    if t < 16 then
      WordAt(block, t)
    else
      CircularShift(1,
        Schedule(block, t - 3) ^ Schedule(block, t - 8) ^ Schedule(block, t - 14) ^ Schedule(block, t - 16))
  }

  /** One step of the 80. */
  function Step(t: nat, w: word, s: Chain): Chain
    requires t < 80
  {
    Chain(Plus(Plus(Plus(Plus(CircularShift(5, s.a), F(t, s.b, s.c, s.d)), s.e), w), K(t)), s.a, CircularShift(30, s.b),
      s.c, s.d)
  }

  function Words(block: seq<byte>): seq<word>
    requires |block| == 64
  {
    seq(80, t requires 0 <= t < 80 => Schedule(block, t))
  }

  /** The buffers after one step for each of the words ws, from the chaining words h. */
  function Steps(h: Chain, ws: seq<word>): Chain
    requires |ws| <= 80
    decreases |ws|
  {
    if ws == [] then h
    else var t := |ws| - 1; Step(t, ws[t], Steps(h, ws[..t]))
  }

  lemma FirstWords(block: seq<byte>, t: nat)
    requires |block| == 64 && t < 16
    ensures Schedule(block, t) == BigEndian(block[t * 4], block[t * 4 + 1], block[t * 4 + 2], block[t * 4 + 3])
  {
    hide BigEndian;
  }

  lemma LaterWords(block: seq<byte>, t: nat, w3: word, w8: word, w14: word, w16: word)
    requires |block| == 64 && 16 <= t < 80
    requires w3 == Schedule(block, t - 3) && w8 == Schedule(block, t - 8)
    requires w14 == Schedule(block, t - 14) && w16 == Schedule(block, t - 16)
    ensures Schedule(block, t) == CircularShift(1, w3 ^ w8 ^ w14 ^ w16)
  {
    hide CircularShift, WordAt;
  }

  lemma NoSteps(h: Chain)
    ensures Steps(h, []) == h
  {
  }

  lemma NextStep(h: Chain, ws: seq<word>, t: nat)
    requires t < |ws| <= 80
    ensures Steps(h, ws[..t + 1]) == Step(t, ws[t], Steps(h, ws[..t]))
  {
    hide Step;
    assert ws[..t + 1][..t] == ws[..t];
  }

  function Add(h: Chain, s: Chain): Chain {
    Chain(Plus(h.a, s.a), Plus(h.b, s.b), Plus(h.c, s.c), Plus(h.d, s.d), Plus(h.e, s.e))
  }

  function Compress(h: Chain, block: seq<byte>): Chain
    requires |block| == 64
  {
    Add(h, Steps(h, Words(block)))
  }

  lemma AllSteps(h: Chain, block: seq<byte>)
    requires |block| == 64
    ensures var s := Steps(h, Words(block));
      Compress(h, block) == Chain(Plus(h.a, s.a), Plus(h.b, s.b), Plus(h.c, s.c), Plus(h.d, s.d), Plus(h.e, s.e))
  {
    hide Steps, Schedule, Plus;
  }

  lemma FirstBlock(length: nat)
    requires length > 0 && length % 64 == 0
    ensures length >= 64 && (length - 64) % 64 == 0
  {
  }

  /** The chaining words after all the blocks of s. */
  function Fold(h: Chain, s: seq<byte>): Chain
    requires |s| % 64 == 0
    decreases |s|
  {
    if s == [] then h
    else
      FirstBlock(|s|);
      Fold(Compress(h, s[..64]), s[64..])
  }

  function WordBytes(w: word): (r: seq<byte>)
    ensures |r| == 4
  {
    [(w as int / 0x1000000 % 256) as byte, (w as int / 0x10000 % 256) as byte,
     (w as int / 0x100 % 256) as byte, (w as int % 256) as byte]
  }

  function ChainBytes(h: Chain): (r: seq<byte>)
    ensures |r| == 20
  {
    WordBytes(h.a) + WordBytes(h.b) + WordBytes(h.c) + WordBytes(h.d) + WordBytes(h.e)
  }

  /** The message digest of m. */
  function Digest(m: seq<byte>): (r: seq<byte>)
    ensures |r| == 20
  {
    ChainBytes(Fold(INITIAL, Pad(m)))
  }

  // ---------- properties ----------

  lemma AddBlocks(a: nat, b: nat)
    requires a % 64 == 0 && b % 64 == 0
    ensures (a + b) % 64 == 0
  {
  }

  /** Folding is done block by block, wherever the sequence is cut. */
  lemma {:induction false} FoldAppend(h: Chain, s: seq<byte>, t: seq<byte>)
    requires |s| % 64 == 0 && |t| % 64 == 0
    ensures |s + t| % 64 == 0
    ensures Fold(h, s + t) == Fold(Fold(h, s), t)
    decreases |s|
  {
    hide Compress;
    AddBlocks(|s|, |t|);
    if s == [] {
      assert s + t == t;
    } else {
      assert (s + t)[..64] == s[..64] && (s + t)[64..] == s[64..] + t;
      FoldAppend(Compress(h, s[..64]), s[64..], t);
    }
  }

  lemma FoldBlock(h: Chain, s: seq<byte>, block: seq<byte>)
    requires |s| % 64 == 0 && |block| == 64
    ensures |s + block| % 64 == 0
    ensures Fold(h, s + block) == Compress(Fold(h, s), block)
  {
    hide Compress;
    FoldAppend(h, s, block);
    assert block[..64] == block && block[64..] == [];
  }

  /** No shorter run of zeros brings the padded message to a whole number of blocks. */
  lemma FewestZeros(length: nat, k: nat)
    ensures (length + 1 + k + 8) % 64 == 0 ==> ZeroCount(length) <= k
  {
  }

  /** The 64-bit length can be read back. */
  function ReadLength64(s: seq<byte>): nat
    requires |s| == 8
  {
    s[0] as nat * 0x100000000000000 + s[1] as nat * 0x1000000000000 + s[2] as nat * 0x10000000000
      + s[3] as nat * 0x100000000 + s[4] as nat * 0x1000000 + s[5] as nat * 0x10000 + s[6] as nat * 0x100 + s[7] as nat
  }

  lemma LengthReadsBack(n: nat)
    requires n < 0x10000000000000000
    ensures ReadLength64(Length64(n)) == n
  {
    hide ReadLength64, Length64;
    SplitByte(n, 1);
    SplitByte(n, 0x100);
    SplitByte(n, 0x10000);
    SplitByte(n, 0x1000000);
    SplitByte(n, 0x100000000);
    SplitByte(n, 0x10000000000);
    SplitByte(n, 0x1000000000000);
    ReadBytes(n);
  }

  lemma ReadBytes(n: nat)
    requires n < 0x10000000000000000
    ensures ReadLength64(Length64(n))
         == n / 0x100000000000000 * 0x100000000000000 + n / 0x1000000000000 % 256 * 0x1000000000000
          + n / 0x10000000000 % 256 * 0x10000000000 + n / 0x100000000 % 256 * 0x100000000
          + n / 0x1000000 % 256 * 0x1000000 + n / 0x10000 % 256 * 0x10000 + n / 0x100 % 256 * 0x100 + n % 256
  {
    assert n / 0x100000000000000 < 256;
  }

  /** Below the length limit, different messages have different paddings. */
  lemma PadInjective(m: seq<byte>, m': seq<byte>)
    requires |m| < 0x2000000000000000 && |m'| < 0x2000000000000000
    requires Pad(m) == Pad(m')
    ensures m == m'
  {
    var p := Pad(m);
    assert p[|p| - 8..] == Length64(8 * |m|);
    assert p[|p| - 8..] == Length64(8 * |m'|);
    LengthReadsBack(8 * |m|);
    LengthReadsBack(8 * |m'|);
    assert p[..|m|] == m && p[..|m'|] == m';
  }
}
