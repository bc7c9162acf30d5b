/** The first test vector of section 7.3 of RFC 3174, worked through step by step. */
module Sha1Vector {
  import opened Bytes
  import opened Sha1Spec
  import opened Word

  /** The one block of the padded message "abc". */
  function Block(): (r: seq<byte>)
    ensures |r| == 64
  {
    [97, 98, 99, 0x80] + Zeros(52) + [0, 0, 0, 0, 0, 0, 0, 24]
  }

  lemma PadAbc()
    ensures Pad([97, 98, 99]) == Block()
  {
    assert ZeroCount(3) == 52;
    assert Length64(24) == [0, 0, 0, 0, 0, 0, 0, 24];
  }

  /** The words of the message itself. */
  lemma Words0(b: seq<byte>)
    requires |b| == 64 && b[0] == 97 && b[1] == 98 && b[2] == 99 && b[3] == 0x80 && b[63] == 24
    requires forall k | 4 <= k < 63 :: b[k] == 0
    ensures Schedule(b, 0) == 0x61626380 && Schedule(b, 15) == 24
    ensures forall t: nat | 1 <= t < 15 :: Schedule(b, t) == 0
  {
    hide Schedule, BigEndian;
    ThreeWords();
    forall t: nat | t < 16
      ensures Schedule(b, t) == if t == 0 then 0x61626380 else if t < 15 then 0 else 24
    {
      FirstWords(b, t);
    }
  }

  lemma FirstBytes(b: seq<byte>)
    requires |b| == 64 && b == Block()
    ensures b[0] == 97 && b[1] == 98 && b[2] == 99 && b[3] == 0x80 && b[63] == 24
    ensures forall k | 4 <= k < 63 :: b[k] == 0
  {
  }

  lemma ThreeWords()
    ensures BigEndian(97, 98, 99, 0x80) == 0x61626380 && BigEndian(0, 0, 0, 0) == 0 && BigEndian(0, 0, 0, 24) == 24
  {
  }

  lemma Words1(b: seq<byte>)
    requires |b| == 64 && b == Block()
    ensures Schedule(b, 16) == 0xC2C4C700 && Schedule(b, 17) == 0x00000000
    ensures Schedule(b, 18) == 0x00000030 && Schedule(b, 19) == 0x85898E01
    ensures Schedule(b, 20) == 0x00000000 && Schedule(b, 21) == 0x00000060
    ensures Schedule(b, 22) == 0x0B131C03 && Schedule(b, 23) == 0x00000030
    ensures Schedule(b, 24) == 0x85898EC1 && Schedule(b, 25) == 0x16263806
    ensures Schedule(b, 26) == 0x00000000 && Schedule(b, 27) == 0x00000180
    ensures Schedule(b, 28) == 0x2C4C700C && Schedule(b, 29) == 0x000000F0
    ensures Schedule(b, 30) == 0x93AFB507 && Schedule(b, 31) == 0x5898E048
  {
    hide Schedule, Block;
    FirstBytes(b);
    Words0(b);
    LaterWords(b, 16, 0x00000000, 0x00000000, 0x00000000, 0x61626380);
    LaterWords(b, 17, 0x00000000, 0x00000000, 0x00000000, 0x00000000);
    LaterWords(b, 18, 0x00000018, 0x00000000, 0x00000000, 0x00000000);
    LaterWords(b, 19, 0xC2C4C700, 0x00000000, 0x00000000, 0x00000000);
    LaterWords(b, 20, 0x00000000, 0x00000000, 0x00000000, 0x00000000);
    LaterWords(b, 21, 0x00000030, 0x00000000, 0x00000000, 0x00000000);
    LaterWords(b, 22, 0x85898E01, 0x00000000, 0x00000000, 0x00000000);
    LaterWords(b, 23, 0x00000000, 0x00000018, 0x00000000, 0x00000000);
    LaterWords(b, 24, 0x00000060, 0xC2C4C700, 0x00000000, 0x00000000);
    LaterWords(b, 25, 0x0B131C03, 0x00000000, 0x00000000, 0x00000000);
    LaterWords(b, 26, 0x00000030, 0x00000030, 0x00000000, 0x00000000);
    LaterWords(b, 27, 0x85898EC1, 0x85898E01, 0x00000000, 0x00000000);
    LaterWords(b, 28, 0x16263806, 0x00000000, 0x00000000, 0x00000000);
    LaterWords(b, 29, 0x00000000, 0x00000060, 0x00000018, 0x00000000);
    LaterWords(b, 30, 0x00000180, 0x0B131C03, 0xC2C4C700, 0x00000000);
    LaterWords(b, 31, 0x2C4C700C, 0x00000030, 0x00000000, 0x00000018);
  }

  lemma Words2(b: seq<byte>)
    requires |b| == 64 && b == Block()
    ensures Schedule(b, 32) == 0x8E9A9202 && Schedule(b, 33) == 0x00000600
    ensures Schedule(b, 34) == 0xB131C0F0 && Schedule(b, 35) == 0x16263BC6
    ensures Schedule(b, 36) == 0x4EBED41E && Schedule(b, 37) == 0x626380A1
    ensures Schedule(b, 38) == 0x16263806 && Schedule(b, 39) == 0x000018C0
    ensures Schedule(b, 40) == 0xD2E138C4 && Schedule(b, 41) == 0x00000F00
    ensures Schedule(b, 42) == 0x3AFB5079 && Schedule(b, 43) == 0x898E04E5
    ensures Schedule(b, 44) == 0xE2BA3C2B && Schedule(b, 45) == 0x000060C0
    ensures Schedule(b, 46) == 0x053A37CD && Schedule(b, 47) == 0x74458547
  {
    hide Schedule, Block;
    Words1(b);
    LaterWords(b, 32, 0x000000F0, 0x85898EC1, 0x00000030, 0xC2C4C700);
    LaterWords(b, 33, 0x93AFB507, 0x16263806, 0x85898E01, 0x00000000);
    LaterWords(b, 34, 0x5898E048, 0x00000000, 0x00000000, 0x00000030);
    LaterWords(b, 35, 0x8E9A9202, 0x00000180, 0x00000060, 0x85898E01);
    LaterWords(b, 36, 0x00000600, 0x2C4C700C, 0x0B131C03, 0x00000000);
    LaterWords(b, 37, 0xB131C0F0, 0x000000F0, 0x00000030, 0x00000060);
    LaterWords(b, 38, 0x16263BC6, 0x93AFB507, 0x85898EC1, 0x0B131C03);
    LaterWords(b, 39, 0x4EBED41E, 0x5898E048, 0x16263806, 0x00000030);
    LaterWords(b, 40, 0x626380A1, 0x8E9A9202, 0x00000000, 0x85898EC1);
    LaterWords(b, 41, 0x16263806, 0x00000600, 0x00000180, 0x16263806);
    LaterWords(b, 42, 0x000018C0, 0xB131C0F0, 0x2C4C700C, 0x00000000);
    LaterWords(b, 43, 0xD2E138C4, 0x16263BC6, 0x000000F0, 0x00000180);
    LaterWords(b, 44, 0x00000F00, 0x4EBED41E, 0x93AFB507, 0x2C4C700C);
    LaterWords(b, 45, 0x3AFB5079, 0x626380A1, 0x5898E048, 0x000000F0);
    LaterWords(b, 46, 0x898E04E5, 0x16263806, 0x8E9A9202, 0x93AFB507);
    LaterWords(b, 47, 0xE2BA3C2B, 0x000018C0, 0x00000600, 0x5898E048);
  }

  lemma Words3(b: seq<byte>)
    requires |b| == 64 && b == Block()
    ensures Schedule(b, 48) == 0xDA9415ED && Schedule(b, 49) == 0x26380A16
    ensures Schedule(b, 50) == 0x626383A1 && Schedule(b, 51) == 0x4EBF54DE
    ensures Schedule(b, 52) == 0x3835B44B && Schedule(b, 53) == 0x0000F600
    ensures Schedule(b, 54) == 0x1E84C7A3 && Schedule(b, 55) == 0x98E04D98
    ensures Schedule(b, 56) == 0x651D16A0 && Schedule(b, 57) == 0x62658CA1
    ensures Schedule(b, 58) == 0x458544D6 && Schedule(b, 59) == 0x44584CB7
    ensures Schedule(b, 60) == 0x7BA06619 && Schedule(b, 61) == 0x6380AEA2
    ensures Schedule(b, 62) == 0x0AE55269 && Schedule(b, 63) == 0x627B49A1
  {
    hide Schedule, Block;
    Words2(b);
    LaterWords(b, 48, 0x000060C0, 0xD2E138C4, 0xB131C0F0, 0x8E9A9202);
    LaterWords(b, 49, 0x053A37CD, 0x00000F00, 0x16263BC6, 0x00000600);
    LaterWords(b, 50, 0x74458547, 0x3AFB5079, 0x4EBED41E, 0xB131C0F0);
    LaterWords(b, 51, 0xDA9415ED, 0x898E04E5, 0x626380A1, 0x16263BC6);
    LaterWords(b, 52, 0x26380A16, 0xE2BA3C2B, 0x16263806, 0x4EBED41E);
    LaterWords(b, 53, 0x626383A1, 0x000060C0, 0x000018C0, 0x626380A1);
    LaterWords(b, 54, 0x4EBF54DE, 0x053A37CD, 0xD2E138C4, 0x16263806);
    LaterWords(b, 55, 0x3835B44B, 0x74458547, 0x00000F00, 0x000018C0);
    LaterWords(b, 56, 0x0000F600, 0xDA9415ED, 0x3AFB5079, 0xD2E138C4);
    LaterWords(b, 57, 0x1E84C7A3, 0x26380A16, 0x898E04E5, 0x00000F00);
    LaterWords(b, 58, 0x98E04D98, 0x626383A1, 0xE2BA3C2B, 0x3AFB5079);
    LaterWords(b, 59, 0x651D16A0, 0x4EBF54DE, 0x000060C0, 0x898E04E5);
    LaterWords(b, 60, 0x62658CA1, 0x3835B44B, 0x053A37CD, 0xE2BA3C2B);
    LaterWords(b, 61, 0x458544D6, 0x0000F600, 0x74458547, 0x000060C0);
    LaterWords(b, 62, 0x44584CB7, 0x1E84C7A3, 0xDA9415ED, 0x053A37CD);
    LaterWords(b, 63, 0x7BA06619, 0x98E04D98, 0x26380A16, 0x74458547);
  }

  lemma Words4(b: seq<byte>)
    requires |b| == 64 && b == Block()
    ensures Schedule(b, 64) == 0x7CD45C9D && Schedule(b, 65) == 0x000F0000
    ensures Schedule(b, 66) == 0xFB50753A && Schedule(b, 67) == 0xEC6765E8
    ensures Schedule(b, 68) == 0xBA3C2BE2 && Schedule(b, 69) == 0x0060C000
    ensures Schedule(b, 70) == 0x3A37CD05 && Schedule(b, 71) == 0x458546F4
    ensures Schedule(b, 72) == 0xB8599DD6 && Schedule(b, 73) == 0x380A1A26
    ensures Schedule(b, 74) == 0x01E02203 && Schedule(b, 75) == 0xE7CC3456
    ensures Schedule(b, 76) == 0xE6E60B69 && Schedule(b, 77) == 0x00F60A00
    ensures Schedule(b, 78) == 0x5795EF4F && Schedule(b, 79) == 0x822E0879
  {
    hide Schedule, Block;
    Words3(b);
    LaterWords(b, 64, 0x6380AEA2, 0x651D16A0, 0x626383A1, 0xDA9415ED);
    LaterWords(b, 65, 0x0AE55269, 0x62658CA1, 0x4EBF54DE, 0x26380A16);
    LaterWords(b, 66, 0x627B49A1, 0x458544D6, 0x3835B44B, 0x626383A1);
    LaterWords(b, 67, 0x7CD45C9D, 0x44584CB7, 0x0000F600, 0x4EBF54DE);
    LaterWords(b, 68, 0x000F0000, 0x7BA06619, 0x1E84C7A3, 0x3835B44B);
    LaterWords(b, 69, 0xFB50753A, 0x6380AEA2, 0x98E04D98, 0x0000F600);
    LaterWords(b, 70, 0xEC6765E8, 0x0AE55269, 0x651D16A0, 0x1E84C7A3);
    LaterWords(b, 71, 0xBA3C2BE2, 0x627B49A1, 0x62658CA1, 0x98E04D98);
    LaterWords(b, 72, 0x0060C000, 0x7CD45C9D, 0x458544D6, 0x651D16A0);
    LaterWords(b, 73, 0x3A37CD05, 0x000F0000, 0x44584CB7, 0x62658CA1);
    LaterWords(b, 74, 0x458546F4, 0xFB50753A, 0x7BA06619, 0x458544D6);
    LaterWords(b, 75, 0xB8599DD6, 0xEC6765E8, 0x6380AEA2, 0x44584CB7);
    LaterWords(b, 76, 0x380A1A26, 0xBA3C2BE2, 0x0AE55269, 0x7BA06619);
    LaterWords(b, 77, 0x01E02203, 0x0060C000, 0x627B49A1, 0x6380AEA2);
    LaterWords(b, 78, 0xE7CC3456, 0x3A37CD05, 0x7CD45C9D, 0x0AE55269);
    LaterWords(b, 79, 0xE6E60B69, 0x458546F4, 0x000F0000, 0x627B49A1);
  }

  /** The buffers before step t, and so after it. */
  lemma StepTo(t: nat, s: Chain, w: word, r: Chain)
    requires t < 80 && Steps(INITIAL, Words(Block())[..t]) == s && Schedule(Block(), t) == w && Step(t, w, s) == r
    ensures Steps(INITIAL, Words(Block())[..t + 1]) == r
  {
    hide Steps, Step, Schedule;
    NextStep(INITIAL, Words(Block()), t);
  }

  lemma Steps0()
    ensures Steps(INITIAL, Words(Block())[..16])
         == Chain(0x20BDD62F, 0x196BEE77, 0x644A3DA5, 0x1181ED99, 0x18C623F9)
  {
    hide Schedule, Steps, Block;
    FirstBytes(Block());
    Words0(Block());
    assert Words(Block())[..0] == [];
    NoSteps(INITIAL);
    StepTo(0, Chain(0x67452301, 0xEFCDAB89, 0x98BADCFE, 0x10325476, 0xC3D2E1F0), 0x61626380,
           Chain(0x0116FC33, 0x67452301, 0x7BF36AE2, 0x98BADCFE, 0x10325476));
    StepTo(1, Chain(0x0116FC33, 0x67452301, 0x7BF36AE2, 0x98BADCFE, 0x10325476), 0x00000000,
           Chain(0x8990536D, 0x0116FC33, 0x59D148C0, 0x7BF36AE2, 0x98BADCFE));
    StepTo(2, Chain(0x8990536D, 0x0116FC33, 0x59D148C0, 0x7BF36AE2, 0x98BADCFE), 0x00000000,
           Chain(0xA1390F08, 0x8990536D, 0xC045BF0C, 0x59D148C0, 0x7BF36AE2));
    StepTo(3, Chain(0xA1390F08, 0x8990536D, 0xC045BF0C, 0x59D148C0, 0x7BF36AE2), 0x00000000,
           Chain(0xCDD8E11B, 0xA1390F08, 0x626414DB, 0xC045BF0C, 0x59D148C0));
    StepTo(4, Chain(0xCDD8E11B, 0xA1390F08, 0x626414DB, 0xC045BF0C, 0x59D148C0), 0x00000000,
           Chain(0xCFD499DE, 0xCDD8E11B, 0x284E43C2, 0x626414DB, 0xC045BF0C));
    StepTo(5, Chain(0xCFD499DE, 0xCDD8E11B, 0x284E43C2, 0x626414DB, 0xC045BF0C), 0x00000000,
           Chain(0x3FC7CA40, 0xCFD499DE, 0xF3763846, 0x284E43C2, 0x626414DB));
    StepTo(6, Chain(0x3FC7CA40, 0xCFD499DE, 0xF3763846, 0x284E43C2, 0x626414DB), 0x00000000,
           Chain(0x993E30C1, 0x3FC7CA40, 0xB3F52677, 0xF3763846, 0x284E43C2));
    StepTo(7, Chain(0x993E30C1, 0x3FC7CA40, 0xB3F52677, 0xF3763846, 0x284E43C2), 0x00000000,
           Chain(0x9E8C07D4, 0x993E30C1, 0x0FF1F290, 0xB3F52677, 0xF3763846));
    StepTo(8, Chain(0x9E8C07D4, 0x993E30C1, 0x0FF1F290, 0xB3F52677, 0xF3763846), 0x00000000,
           Chain(0x4B6AE328, 0x9E8C07D4, 0x664F8C30, 0x0FF1F290, 0xB3F52677));
    StepTo(9, Chain(0x4B6AE328, 0x9E8C07D4, 0x664F8C30, 0x0FF1F290, 0xB3F52677), 0x00000000,
           Chain(0x8351F929, 0x4B6AE328, 0x27A301F5, 0x664F8C30, 0x0FF1F290));
    StepTo(10, Chain(0x8351F929, 0x4B6AE328, 0x27A301F5, 0x664F8C30, 0x0FF1F290), 0x00000000,
           Chain(0xFBDA9E89, 0x8351F929, 0x12DAB8CA, 0x27A301F5, 0x664F8C30));
    StepTo(11, Chain(0xFBDA9E89, 0x8351F929, 0x12DAB8CA, 0x27A301F5, 0x664F8C30), 0x00000000,
           Chain(0x63188FE4, 0xFBDA9E89, 0x60D47E4A, 0x12DAB8CA, 0x27A301F5));
    StepTo(12, Chain(0x63188FE4, 0xFBDA9E89, 0x60D47E4A, 0x12DAB8CA, 0x27A301F5), 0x00000000,
           Chain(0x4607B664, 0x63188FE4, 0x7EF6A7A2, 0x60D47E4A, 0x12DAB8CA));
    StepTo(13, Chain(0x4607B664, 0x63188FE4, 0x7EF6A7A2, 0x60D47E4A, 0x12DAB8CA), 0x00000000,
           Chain(0x9128F695, 0x4607B664, 0x18C623F9, 0x7EF6A7A2, 0x60D47E4A));
    StepTo(14, Chain(0x9128F695, 0x4607B664, 0x18C623F9, 0x7EF6A7A2, 0x60D47E4A), 0x00000000,
           Chain(0x196BEE77, 0x9128F695, 0x1181ED99, 0x18C623F9, 0x7EF6A7A2));
    StepTo(15, Chain(0x196BEE77, 0x9128F695, 0x1181ED99, 0x18C623F9, 0x7EF6A7A2), 0x00000018,
           Chain(0x20BDD62F, 0x196BEE77, 0x644A3DA5, 0x1181ED99, 0x18C623F9));
  }

  lemma Steps1()
    ensures Steps(INITIAL, Words(Block())[..32])
         == Chain(0x3B845D33, 0x1267B407, 0x717EEBD7, 0xA0DC2D4B, 0xD2AA1365)
  {
    hide Schedule, Steps, Block;
    Words1(Block());
    Steps0();
    StepTo(16, Chain(0x20BDD62F, 0x196BEE77, 0x644A3DA5, 0x1181ED99, 0x18C623F9), 0xC2C4C700,
           Chain(0x4E925823, 0x20BDD62F, 0xC65AFB9D, 0x644A3DA5, 0x1181ED99));
    StepTo(17, Chain(0x4E925823, 0x20BDD62F, 0xC65AFB9D, 0x644A3DA5, 0x1181ED99), 0x00000000,
           Chain(0x82AA6728, 0x4E925823, 0xC82F758B, 0xC65AFB9D, 0x644A3DA5));
    StepTo(18, Chain(0x82AA6728, 0x4E925823, 0xC82F758B, 0xC65AFB9D, 0x644A3DA5), 0x00000030,
           Chain(0xDC64901D, 0x82AA6728, 0xD3A49608, 0xC82F758B, 0xC65AFB9D));
    StepTo(19, Chain(0xDC64901D, 0x82AA6728, 0xD3A49608, 0xC82F758B, 0xC65AFB9D), 0x85898E01,
           Chain(0xFD9E1D7D, 0xDC64901D, 0x20AA99CA, 0xD3A49608, 0xC82F758B));
    StepTo(20, Chain(0xFD9E1D7D, 0xDC64901D, 0x20AA99CA, 0xD3A49608, 0xC82F758B), 0x00000000,
           Chain(0x1A37B0CA, 0xFD9E1D7D, 0x77192407, 0x20AA99CA, 0xD3A49608));
    StepTo(21, Chain(0x1A37B0CA, 0xFD9E1D7D, 0x77192407, 0x20AA99CA, 0xD3A49608), 0x00000060,
           Chain(0x33A23BFC, 0x1A37B0CA, 0x7F67875F, 0x77192407, 0x20AA99CA));
    StepTo(22, Chain(0x33A23BFC, 0x1A37B0CA, 0x7F67875F, 0x77192407, 0x20AA99CA), 0x0B131C03,
           Chain(0x21283486, 0x33A23BFC, 0x868DEC32, 0x7F67875F, 0x77192407));
    StepTo(23, Chain(0x21283486, 0x33A23BFC, 0x868DEC32, 0x7F67875F, 0x77192407), 0x00000030,
           Chain(0xD541F12D, 0x21283486, 0x0CE88EFF, 0x868DEC32, 0x7F67875F));
    StepTo(24, Chain(0xD541F12D, 0x21283486, 0x0CE88EFF, 0x868DEC32, 0x7F67875F), 0x85898EC1,
           Chain(0xC7567DC6, 0xD541F12D, 0x884A0D21, 0x0CE88EFF, 0x868DEC32));
    StepTo(25, Chain(0xC7567DC6, 0xD541F12D, 0x884A0D21, 0x0CE88EFF, 0x868DEC32), 0x16263806,
           Chain(0x48413BA4, 0xC7567DC6, 0x75507C4B, 0x884A0D21, 0x0CE88EFF));
    StepTo(26, Chain(0x48413BA4, 0xC7567DC6, 0x75507C4B, 0x884A0D21, 0x0CE88EFF), 0x00000000,
           Chain(0xBE35FBD5, 0x48413BA4, 0xB1D59F71, 0x75507C4B, 0x884A0D21));
    StepTo(27, Chain(0xBE35FBD5, 0x48413BA4, 0xB1D59F71, 0x75507C4B, 0x884A0D21), 0x00000180,
           Chain(0x4AA84D97, 0xBE35FBD5, 0x12104EE9, 0xB1D59F71, 0x75507C4B));
    StepTo(28, Chain(0x4AA84D97, 0xBE35FBD5, 0x12104EE9, 0xB1D59F71, 0x75507C4B), 0x2C4C700C,
           Chain(0x8370B52E, 0x4AA84D97, 0x6F8D7EF5, 0x12104EE9, 0xB1D59F71));
    StepTo(29, Chain(0x8370B52E, 0x4AA84D97, 0x6F8D7EF5, 0x12104EE9, 0xB1D59F71), 0x000000F0,
           Chain(0xC5FBAF5D, 0x8370B52E, 0xD2AA1365, 0x6F8D7EF5, 0x12104EE9));
    StepTo(30, Chain(0xC5FBAF5D, 0x8370B52E, 0xD2AA1365, 0x6F8D7EF5, 0x12104EE9), 0x93AFB507,
           Chain(0x1267B407, 0xC5FBAF5D, 0xA0DC2D4B, 0xD2AA1365, 0x6F8D7EF5));
    StepTo(31, Chain(0x1267B407, 0xC5FBAF5D, 0xA0DC2D4B, 0xD2AA1365, 0x6F8D7EF5), 0x5898E048,
           Chain(0x3B845D33, 0x1267B407, 0x717EEBD7, 0xA0DC2D4B, 0xD2AA1365));
  }

  lemma Steps2()
    ensures Steps(INITIAL, Words(Block())[..48])
         == Chain(0xBEAD02CA, 0xA01B846C, 0x8714787C, 0x503CA382, 0xFB86C6AB)
  {
    hide Schedule, Steps, Block;
    Words2(Block());
    Steps1();
    StepTo(32, Chain(0x3B845D33, 0x1267B407, 0x717EEBD7, 0xA0DC2D4B, 0xD2AA1365), 0x8E9A9202,
           Chain(0x046FAA0A, 0x3B845D33, 0xC499ED01, 0x717EEBD7, 0xA0DC2D4B));
    StepTo(33, Chain(0x046FAA0A, 0x3B845D33, 0xC499ED01, 0x717EEBD7, 0xA0DC2D4B), 0x00000600,
           Chain(0x2C0EBC11, 0x046FAA0A, 0xCEE1174C, 0xC499ED01, 0x717EEBD7));
    StepTo(34, Chain(0x2C0EBC11, 0x046FAA0A, 0xCEE1174C, 0xC499ED01, 0x717EEBD7), 0xB131C0F0,
           Chain(0x21796AD4, 0x2C0EBC11, 0x811BEA82, 0xCEE1174C, 0xC499ED01));
    StepTo(35, Chain(0x21796AD4, 0x2C0EBC11, 0x811BEA82, 0xCEE1174C, 0xC499ED01), 0x16263BC6,
           Chain(0xDCBBB0CB, 0x21796AD4, 0x4B03AF04, 0x811BEA82, 0xCEE1174C));
    StepTo(36, Chain(0xDCBBB0CB, 0x21796AD4, 0x4B03AF04, 0x811BEA82, 0xCEE1174C), 0x4EBED41E,
           Chain(0x0F511FD8, 0xDCBBB0CB, 0x085E5AB5, 0x4B03AF04, 0x811BEA82));
    StepTo(37, Chain(0x0F511FD8, 0xDCBBB0CB, 0x085E5AB5, 0x4B03AF04, 0x811BEA82), 0x626380A1,
           Chain(0xDC63973F, 0x0F511FD8, 0xF72EEC32, 0x085E5AB5, 0x4B03AF04));
    StepTo(38, Chain(0xDC63973F, 0x0F511FD8, 0xF72EEC32, 0x085E5AB5, 0x4B03AF04), 0x16263806,
           Chain(0x4C986405, 0xDC63973F, 0x03D447F6, 0xF72EEC32, 0x085E5AB5));
    StepTo(39, Chain(0x4C986405, 0xDC63973F, 0x03D447F6, 0xF72EEC32, 0x085E5AB5), 0x000018C0,
           Chain(0x32DE1CBA, 0x4C986405, 0xF718E5CF, 0x03D447F6, 0xF72EEC32));
    StepTo(40, Chain(0x32DE1CBA, 0x4C986405, 0xF718E5CF, 0x03D447F6, 0xF72EEC32), 0xD2E138C4,
           Chain(0xFC87DEDF, 0x32DE1CBA, 0x53261901, 0xF718E5CF, 0x03D447F6));
    StepTo(41, Chain(0xFC87DEDF, 0x32DE1CBA, 0x53261901, 0xF718E5CF, 0x03D447F6), 0x00000F00,
           Chain(0x970A0D5C, 0xFC87DEDF, 0x8CB7872E, 0x53261901, 0xF718E5CF));
    StepTo(42, Chain(0x970A0D5C, 0xFC87DEDF, 0x8CB7872E, 0x53261901, 0xF718E5CF), 0x3AFB5079,
           Chain(0x7F193DC5, 0x970A0D5C, 0xFF21F7B7, 0x8CB7872E, 0x53261901));
    StepTo(43, Chain(0x7F193DC5, 0x970A0D5C, 0xFF21F7B7, 0x8CB7872E, 0x53261901), 0x898E04E5,
           Chain(0xEE1B1AAF, 0x7F193DC5, 0x25C28357, 0xFF21F7B7, 0x8CB7872E));
    StepTo(44, Chain(0xEE1B1AAF, 0x7F193DC5, 0x25C28357, 0xFF21F7B7, 0x8CB7872E), 0xE2BA3C2B,
           Chain(0x40F28E09, 0xEE1B1AAF, 0x5FC64F71, 0x25C28357, 0xFF21F7B7));
    StepTo(45, Chain(0x40F28E09, 0xEE1B1AAF, 0x5FC64F71, 0x25C28357, 0xFF21F7B7), 0x000060C0,
           Chain(0x1C51E1F2, 0x40F28E09, 0xFB86C6AB, 0x5FC64F71, 0x25C28357));
    StepTo(46, Chain(0x1C51E1F2, 0x40F28E09, 0xFB86C6AB, 0x5FC64F71, 0x25C28357), 0x053A37CD,
           Chain(0xA01B846C, 0x1C51E1F2, 0x503CA382, 0xFB86C6AB, 0x5FC64F71));
    StepTo(47, Chain(0xA01B846C, 0x1C51E1F2, 0x503CA382, 0xFB86C6AB, 0x5FC64F71), 0x74458547,
           Chain(0xBEAD02CA, 0xA01B846C, 0x8714787C, 0x503CA382, 0xFB86C6AB));
  }

  lemma Steps3()
    ensures Steps(INITIAL, Words(Block())[..64])
         == Chain(0x6B61C9E1, 0xB66C020B, 0x9523272C, 0xF5D5B051, 0x8FD4B796)
  {
    hide Schedule, Steps, Block;
    Words3(Block());
    Steps2();
    StepTo(48, Chain(0xBEAD02CA, 0xA01B846C, 0x8714787C, 0x503CA382, 0xFB86C6AB), 0xDA9415ED,
           Chain(0xBAF39337, 0xBEAD02CA, 0x2806E11B, 0x8714787C, 0x503CA382));
    StepTo(49, Chain(0xBAF39337, 0xBEAD02CA, 0x2806E11B, 0x8714787C, 0x503CA382), 0x26380A16,
           Chain(0x120731C5, 0xBAF39337, 0xAFAB40B2, 0x2806E11B, 0x8714787C));
    StepTo(50, Chain(0x120731C5, 0xBAF39337, 0xAFAB40B2, 0x2806E11B, 0x8714787C), 0x626383A1,
           Chain(0x641DB2CE, 0x120731C5, 0xEEBCE4CD, 0xAFAB40B2, 0x2806E11B));
    StepTo(51, Chain(0x641DB2CE, 0x120731C5, 0xEEBCE4CD, 0xAFAB40B2, 0x2806E11B), 0x4EBF54DE,
           Chain(0x3847AD66, 0x641DB2CE, 0x4481CC71, 0xEEBCE4CD, 0xAFAB40B2));
    StepTo(52, Chain(0x3847AD66, 0x641DB2CE, 0x4481CC71, 0xEEBCE4CD, 0xAFAB40B2), 0x3835B44B,
           Chain(0xE490436D, 0x3847AD66, 0x99076CB3, 0x4481CC71, 0xEEBCE4CD));
    StepTo(53, Chain(0xE490436D, 0x3847AD66, 0x99076CB3, 0x4481CC71, 0xEEBCE4CD), 0x0000F600,
           Chain(0x27E9F1D8, 0xE490436D, 0x8E11EB59, 0x99076CB3, 0x4481CC71));
    StepTo(54, Chain(0x27E9F1D8, 0xE490436D, 0x8E11EB59, 0x99076CB3, 0x4481CC71), 0x1E84C7A3,
           Chain(0x7B71F76D, 0x27E9F1D8, 0x792410DB, 0x8E11EB59, 0x99076CB3));
    StepTo(55, Chain(0x7B71F76D, 0x27E9F1D8, 0x792410DB, 0x8E11EB59, 0x99076CB3), 0x98E04D98,
           Chain(0x5E6456AF, 0x7B71F76D, 0x09FA7C76, 0x792410DB, 0x8E11EB59));
    StepTo(56, Chain(0x5E6456AF, 0x7B71F76D, 0x09FA7C76, 0x792410DB, 0x8E11EB59), 0x651D16A0,
           Chain(0xC846093F, 0x5E6456AF, 0x5EDC7DDB, 0x09FA7C76, 0x792410DB));
    StepTo(57, Chain(0xC846093F, 0x5E6456AF, 0x5EDC7DDB, 0x09FA7C76, 0x792410DB), 0x62658CA1,
           Chain(0xD262FF50, 0xC846093F, 0xD79915AB, 0x5EDC7DDB, 0x09FA7C76));
    StepTo(58, Chain(0xD262FF50, 0xC846093F, 0xD79915AB, 0x5EDC7DDB, 0x09FA7C76), 0x458544D6,
           Chain(0x09D785FD, 0xD262FF50, 0xF211824F, 0xD79915AB, 0x5EDC7DDB));
    StepTo(59, Chain(0x09D785FD, 0xD262FF50, 0xF211824F, 0xD79915AB, 0x5EDC7DDB), 0x44584CB7,
           Chain(0x3F52DE5A, 0x09D785FD, 0x3498BFD4, 0xF211824F, 0xD79915AB));
    StepTo(60, Chain(0x3F52DE5A, 0x09D785FD, 0x3498BFD4, 0xF211824F, 0xD79915AB), 0x7BA06619,
           Chain(0xD756C147, 0x3F52DE5A, 0x4275E17F, 0x3498BFD4, 0xF211824F));
    StepTo(61, Chain(0xD756C147, 0x3F52DE5A, 0x4275E17F, 0x3498BFD4, 0xF211824F), 0x6380AEA2,
           Chain(0x548C9CB2, 0xD756C147, 0x8FD4B796, 0x4275E17F, 0x3498BFD4));
    StepTo(62, Chain(0x548C9CB2, 0xD756C147, 0x8FD4B796, 0x4275E17F, 0x3498BFD4), 0x0AE55269,
           Chain(0xB66C020B, 0x548C9CB2, 0xF5D5B051, 0x8FD4B796, 0x4275E17F));
    StepTo(63, Chain(0xB66C020B, 0x548C9CB2, 0xF5D5B051, 0x8FD4B796, 0x4275E17F), 0x627B49A1,
           Chain(0x6B61C9E1, 0xB66C020B, 0x9523272C, 0xF5D5B051, 0x8FD4B796));
  }

  lemma Steps4()
    ensures Steps(INITIAL, Words(Block())[..80])
         == Chain(0x42541B35, 0x5738D5E1, 0x21834873, 0x681E6DF6, 0xD8FDF6AD)
  {
    hide Schedule, Steps, Block;
    Words4(Block());
    Steps3();
    StepTo(64, Chain(0x6B61C9E1, 0xB66C020B, 0x9523272C, 0xF5D5B051, 0x8FD4B796), 0x7CD45C9D,
           Chain(0x19DFA7AC, 0x6B61C9E1, 0xED9B0082, 0x9523272C, 0xF5D5B051));
    StepTo(65, Chain(0x19DFA7AC, 0x6B61C9E1, 0xED9B0082, 0x9523272C, 0xF5D5B051), 0x000F0000,
           Chain(0x101655F9, 0x19DFA7AC, 0x5AD87278, 0xED9B0082, 0x9523272C));
    StepTo(66, Chain(0x101655F9, 0x19DFA7AC, 0x5AD87278, 0xED9B0082, 0x9523272C), 0xFB50753A,
           Chain(0x0C3DF2B4, 0x101655F9, 0x0677E9EB, 0x5AD87278, 0xED9B0082));
    StepTo(67, Chain(0x0C3DF2B4, 0x101655F9, 0x0677E9EB, 0x5AD87278, 0xED9B0082), 0xEC6765E8,
           Chain(0x78DD4D2B, 0x0C3DF2B4, 0x4405957E, 0x0677E9EB, 0x5AD87278));
    StepTo(68, Chain(0x78DD4D2B, 0x0C3DF2B4, 0x4405957E, 0x0677E9EB, 0x5AD87278), 0xBA3C2BE2,
           Chain(0x497093C0, 0x78DD4D2B, 0x030F7CAD, 0x4405957E, 0x0677E9EB));
    StepTo(69, Chain(0x497093C0, 0x78DD4D2B, 0x030F7CAD, 0x4405957E, 0x0677E9EB), 0x0060C000,
           Chain(0x3F2588C2, 0x497093C0, 0xDE37534A, 0x030F7CAD, 0x4405957E));
    StepTo(70, Chain(0x3F2588C2, 0x497093C0, 0xDE37534A, 0x030F7CAD, 0x4405957E), 0x3A37CD05,
           Chain(0xC199F8C7, 0x3F2588C2, 0x125C24F0, 0xDE37534A, 0x030F7CAD));
    StepTo(71, Chain(0xC199F8C7, 0x3F2588C2, 0x125C24F0, 0xDE37534A, 0x030F7CAD), 0x458546F4,
           Chain(0x39859DE7, 0xC199F8C7, 0x8FC96230, 0x125C24F0, 0xDE37534A));
    StepTo(72, Chain(0x39859DE7, 0xC199F8C7, 0x8FC96230, 0x125C24F0, 0xDE37534A), 0xB8599DD6,
           Chain(0xEDB42DE4, 0x39859DE7, 0xF0667E31, 0x8FC96230, 0x125C24F0));
    StepTo(73, Chain(0xEDB42DE4, 0x39859DE7, 0xF0667E31, 0x8FC96230, 0x125C24F0), 0x380A1A26,
           Chain(0x11793F6F, 0xEDB42DE4, 0xCE616779, 0xF0667E31, 0x8FC96230));
    StepTo(74, Chain(0x11793F6F, 0xEDB42DE4, 0xCE616779, 0xF0667E31, 0x8FC96230), 0x01E02203,
           Chain(0x5EE76897, 0x11793F6F, 0x3B6D0B79, 0xCE616779, 0xF0667E31));
    StepTo(75, Chain(0x5EE76897, 0x11793F6F, 0x3B6D0B79, 0xCE616779, 0xF0667E31), 0xE7CC3456,
           Chain(0x63F7DAB7, 0x5EE76897, 0xC45E4FDB, 0x3B6D0B79, 0xCE616779));
    StepTo(76, Chain(0x63F7DAB7, 0x5EE76897, 0xC45E4FDB, 0x3B6D0B79, 0xCE616779), 0xE6E60B69,
           Chain(0xA079B7D9, 0x63F7DAB7, 0xD7B9DA25, 0xC45E4FDB, 0x3B6D0B79));
    StepTo(77, Chain(0xA079B7D9, 0x63F7DAB7, 0xD7B9DA25, 0xC45E4FDB, 0x3B6D0B79), 0x00F60A00,
           Chain(0x860D21CC, 0xA079B7D9, 0xD8FDF6AD, 0xD7B9DA25, 0xC45E4FDB));
    StepTo(78, Chain(0x860D21CC, 0xA079B7D9, 0xD8FDF6AD, 0xD7B9DA25, 0xC45E4FDB), 0x5795EF4F,
           Chain(0x5738D5E1, 0x860D21CC, 0x681E6DF6, 0xD8FDF6AD, 0xD7B9DA25));
    StepTo(79, Chain(0x5738D5E1, 0x860D21CC, 0x681E6DF6, 0xD8FDF6AD, 0xD7B9DA25), 0x822E0879,
           Chain(0x42541B35, 0x5738D5E1, 0x21834873, 0x681E6DF6, 0xD8FDF6AD));
  }

  lemma LastSums()
    ensures var s := Chain(0x42541B35, 0x5738D5E1, 0x21834873, 0x681E6DF6, 0xD8FDF6AD);
      Chain(Plus(INITIAL.a, s.a), Plus(INITIAL.b, s.b), Plus(INITIAL.c, s.c),
            Plus(INITIAL.d, s.d), Plus(INITIAL.e, s.e))
        == Chain(0xA9993E36, 0x4706816A, 0xBA3E2571, 0x7850C26C, 0x9CD0D89D)
  {
  }

  lemma LastBytes()
    ensures ChainBytes(Chain(0xA9993E36, 0x4706816A, 0xBA3E2571, 0x7850C26C, 0x9CD0D89D))
         == [0xA9, 0x99, 0x3E, 0x36, 0x47, 0x06, 0x81, 0x6A, 0xBA, 0x3E,
             0x25, 0x71, 0x78, 0x50, 0xC2, 0x6C, 0x9C, 0xD0, 0xD8, 0x9D]
  {
    hide WordBytes;
    LastWords();
  }

  lemma LastWords()
    ensures WordBytes(0xA9993E36) == [0xA9, 0x99, 0x3E, 0x36]
    ensures WordBytes(0x4706816A) == [0x47, 0x06, 0x81, 0x6A]
    ensures WordBytes(0xBA3E2571) == [0xBA, 0x3E, 0x25, 0x71]
    ensures WordBytes(0x7850C26C) == [0x78, 0x50, 0xC2, 0x6C]
    ensures WordBytes(0x9CD0D89D) == [0x9C, 0xD0, 0xD8, 0x9D]
  {
    WordAsNumber();
  }

  lemma WordAsNumber()
    ensures (0xA9993E36 as word) as int == 2845392438 && (0x4706816A as word) as int == 1191608682
    ensures (0xBA3E2571 as word) as int == 3124634993 && (0x7850C26C as word) as int == 2018558572
    ensures (0x9CD0D89D as word) as int == 2630932637
  {
  }

  /** The digest of "abc". */
  lemma DigestOfAbc()
    ensures Digest([97, 98, 99])
         == [0xA9, 0x99, 0x3E, 0x36, 0x47, 0x06, 0x81, 0x6A, 0xBA, 0x3E,
             0x25, 0x71, 0x78, 0x50, 0xC2, 0x6C, 0x9C, 0xD0, 0xD8, 0x9D]
  {
    hide Schedule, Steps, Block, Pad, Plus, Compress, ChainBytes, Fold, Add;
    PadAbc();
    Steps4();
    assert Words(Block())[..80] == Words(Block());
    AllSteps(INITIAL, Block());
    LastSums();
    OneBlock(Block());
    LastBytes();
  }

  lemma OneBlock(block: seq<byte>)
    requires |block| == 64
    ensures Fold(INITIAL, block) == Compress(INITIAL, block)
  {
    hide Compress;
    assert block[..64] == block && block[64..] == [];
  }
}
