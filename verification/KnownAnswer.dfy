/** A known answer: the double hash of the 80 bytes of the first block of the Bitcoin chain, whose last
    word is zero. The tables hold the message schedule and the variables a and e after each round of
    its three compressions; the rounds of the standard are followed through them one by one. */
module KnownAnswer {
  import opened Words
  import opened Sha256

  // Compression 0: the first 64 bytes

  function W0(t: nat): Word
    requires t < 64
  {
    if t < 8 then [0x01000000, 0x00000000, 0x00000000, 0x00000000, 0x00000000, 0x00000000, 0x00000000, 0x00000000][t]
    else if t < 16 then [0x00000000, 0x3ba3edfd, 0x7a7b12b2, 0x7ac72c3e, 0x67768f61, 0x7fc81bc3, 0x888a5132, 0x3a9fb8aa][t - 8]
    else if t < 24 then [0x9f4125bd, 0xa5ca10a4, 0x3115d83f, 0xb1e64439, 0xd6dc57a1, 0x7341e890, 0xdbb11f4a, 0x68880d6f][t - 16]
    else if t < 32 then [0x58c16019, 0x22d14c7f, 0x811e0379, 0x4f54aa6f, 0x2ca27bda, 0xfc2fd31d, 0x20bc20bf, 0xc8ed2455][t - 24]
    else if t < 40 then [0x302eccc4, 0x6bc9d731, 0x34b280c5, 0xfc8b72e7, 0x382ddd40, 0x34222392, 0xca401f98, 0x501d2743][t - 32]
    else if t < 48 then [0x7999675c, 0xf2e12eb6, 0x1af53bd2, 0x696f27ba, 0x6c156da4, 0xb0194981, 0x87f013ce, 0x0db7fc18][t - 40]
    else if t < 56 then [0x49325e36, 0xb519f5ca, 0x0fc2d142, 0x1d3818f6, 0xc4da6aab, 0xfaaf6bf9, 0x159d12bd, 0xe023ef94][t - 48]
    else [0x91d40792, 0x7644b096, 0x6b5e657c, 0x1ac19395, 0xabd3c09f, 0x4a773e3c, 0xcf366adb, 0x0a90f29a][t - 56]
  }

  function A0(t: nat): Word
    requires t < 68
  {
    if t < 8 then [0xa54ff53a, 0x3c6ef372, 0xbb67ae85, 0x6a09e667, 0xfd08884d, 0xfb9d8a8c, 0xa2a7a1b0, 0xc83f4d56][t]
    else if t < 16 then [0xe5f73d23, 0xa2d7a833, 0x543f3eff, 0xcde67f7d, 0xc92cbfc6, 0x70eaa7fe, 0xbd08b5ff, 0xb6765083][t - 8]
    else if t < 24 then [0xb3ff0d63, 0xdda5108a, 0x381faffc, 0x75cb74d0, 0xc1cbbd65, 0x5a17eaac, 0xe00ec585, 0xd167be3b][t - 16]
    else if t < 32 then [0xe66077ff, 0x1b574460, 0x06e5c375, 0xe793709d, 0xaad46208, 0x34714950, 0x4612c6bf, 0x65ebca1d][t - 24]
    else if t < 40 then [0x738e87b7, 0xa5e36006, 0xd4c607a4, 0x141109fe, 0x687645dc, 0xa952d853, 0x56bdd333, 0x6909e0b3][t - 32]
    else if t < 48 then [0x6523592d, 0x2354749c, 0x7c78b105, 0x80158847, 0x73aa8ab5, 0xc456f44e, 0x96041c8e, 0x01812bd6][t - 40]
    else if t < 56 then [0x8039d657, 0xb37dba9a, 0x510a1a84, 0x67be715f, 0xe84f669f, 0xcf2ebde8, 0xd78fde5a, 0x85c177fa][t - 48]
    else if t < 64 then [0xc3e910d3, 0x2424ca47, 0x65e6fb99, 0x63cc77d5, 0xb3b5b928, 0xb13e2ecf, 0xf40e251d, 0x3c723956][t - 56]
    else [0x7909d56e, 0x545db90b, 0xa7f1116b, 0x5286b3cc][t - 64]
  }

  function E0(t: nat): Word
    requires t < 68
  {
    if t < 8 then [0x5be0cd19, 0x1f83d9ab, 0x9b05688c, 0x510e527f, 0x99c7e2a2, 0x1df5d216, 0x465b3847, 0x7b116b56][t]
    else if t < 16 then [0xd2b3724d, 0xf1279627, 0x1e678142, 0xd31ffd8a, 0xd8c2b68f, 0x48119282, 0x3e025d97, 0x28cbdc34][t - 8]
    else if t < 24 then [0x17feeddf, 0x1b39d036, 0x95b3d2fc, 0x6328db87, 0x62196338, 0x1047c73f, 0xaa14dd21, 0x17e89ecf][t - 16]
    else if t < 32 then [0x3ca4bac1, 0xcd4f65e8, 0x9ac886b0, 0xe579537b, 0xd8940270, 0x3d7abf09, 0x236e790d, 0x77ca7c81][t - 24]
    else if t < 40 then [0x13357754, 0x97830240, 0x901f1ebf, 0x742d17eb, 0xb86eb146, 0x0cf68ef9, 0x9f88ded2, 0x592b0ce6][t - 32]
    else if t < 48 then [0x6c23d10f, 0x4a3630f7, 0x744e9c72, 0x4dbd1d78, 0xc460b720, 0xd406f6ae, 0x09b3a097, 0x5a088a34][t - 40]
    else if t < 56 then [0x95610544, 0x41e865b7, 0xd6f3dcb6, 0xeffbe2ea, 0x4a79261e, 0x2e272166, 0xd2f10dcc, 0xa623c9c9][t - 48]
    else if t < 64 then [0xc92cdd96, 0x59631ce2, 0xaf7c77f9, 0x654c20b6, 0x3a32780d, 0x3e31ac54, 0x43afa463, 0x81882538][t - 56]
    else [0xeb392c02, 0x772dad8b, 0xb3fb9b3c, 0x72ba866a][t - 64]
  }

  /** The variables a..h after t rounds. */
  function S0(t: nat): State
    requires t <= 64
  {
    State(A0(t + 3), A0(t + 2), A0(t + 1), A0(t), E0(t + 3), E0(t + 2), E0(t + 1), E0(t))
  }

  /** Eight words of a block's schedule are those of the table. */
  predicate Agrees0(b: seq<Word>, t: nat)
    requires |b| == 16 && t <= 56
  {
    && Schedule(b, t) == W0(t) && Schedule(b, t + 1) == W0(t + 1)
    && Schedule(b, t + 2) == W0(t + 2) && Schedule(b, t + 3) == W0(t + 3)
    && Schedule(b, t + 4) == W0(t + 4) && Schedule(b, t + 5) == W0(t + 5)
    && Schedule(b, t + 6) == W0(t + 6) && Schedule(b, t + 7) == W0(t + 7)
  }

  lemma Word0(b: seq<Word>, t: nat)
    requires |b| == 16 && 16 <= t < 64
    requires Schedule(b, t - 2) == W0(t - 2) && Schedule(b, t - 7) == W0(t - 7)
    requires Schedule(b, t - 15) == W0(t - 15) && Schedule(b, t - 16) == W0(t - 16)
    requires NextScheduled(W0(t - 2), W0(t - 7), W0(t - 15), W0(t - 16)) == W0(t)
    ensures Schedule(b, t) == W0(t)
  {
    hide NextScheduled, W0;
  }

  lemma Round0(c: State, b: seq<Word>, t: nat)
    requires t < 64 && |b| == 16 && Rounds(c, b, t) == S0(t) && Schedule(b, t) == W0(t)
    requires Round(S0(t), K(t), W0(t)) == S0(t + 1)
    ensures Rounds(c, b, t + 1) == S0(t + 1)
  {
    hide Round, S0, W0, K;
  }

  lemma Words0_16(b: seq<Word>)
    requires |b| == 16 && Agrees0(b, 0) && Agrees0(b, 8)
    ensures Agrees0(b, 16)
  {
    hide Schedule;
    Word0(b, 16); Word0(b, 17); Word0(b, 18); Word0(b, 19);
    Word0(b, 20); Word0(b, 21); Word0(b, 22); Word0(b, 23);
  }

  lemma Words0_24(b: seq<Word>)
    requires |b| == 16 && Agrees0(b, 8) && Agrees0(b, 16)
    ensures Agrees0(b, 24)
  {
    hide Schedule;
    Word0(b, 24); Word0(b, 25); Word0(b, 26); Word0(b, 27);
    Word0(b, 28); Word0(b, 29); Word0(b, 30); Word0(b, 31);
  }

  lemma Words0_32(b: seq<Word>)
    requires |b| == 16 && Agrees0(b, 16) && Agrees0(b, 24)
    ensures Agrees0(b, 32)
  {
    hide Schedule;
    Word0(b, 32); Word0(b, 33); Word0(b, 34); Word0(b, 35);
    Word0(b, 36); Word0(b, 37); Word0(b, 38); Word0(b, 39);
  }

  lemma Words0_40(b: seq<Word>)
    requires |b| == 16 && Agrees0(b, 24) && Agrees0(b, 32)
    ensures Agrees0(b, 40)
  {
    hide Schedule;
    Word0(b, 40); Word0(b, 41); Word0(b, 42); Word0(b, 43);
    Word0(b, 44); Word0(b, 45); Word0(b, 46); Word0(b, 47);
  }

  lemma Words0_48(b: seq<Word>)
    requires |b| == 16 && Agrees0(b, 32) && Agrees0(b, 40)
    ensures Agrees0(b, 48)
  {
    hide Schedule;
    Word0(b, 48); Word0(b, 49); Word0(b, 50); Word0(b, 51);
    Word0(b, 52); Word0(b, 53); Word0(b, 54); Word0(b, 55);
  }

  lemma Words0_56(b: seq<Word>)
    requires |b| == 16 && Agrees0(b, 40) && Agrees0(b, 48)
    ensures Agrees0(b, 56)
  {
    hide Schedule;
    Word0(b, 56); Word0(b, 57); Word0(b, 58); Word0(b, 59);
    Word0(b, 60); Word0(b, 61); Word0(b, 62); Word0(b, 63);
  }

  lemma Rounds0_0(c: State, b: seq<Word>)
    requires |b| == 16 && Agrees0(b, 0) && Rounds(c, b, 0) == S0(0)
    ensures Rounds(c, b, 8) == S0(8)
  {
    hide Rounds, Schedule;
    Round0(c, b, 0); Round0(c, b, 1); Round0(c, b, 2); Round0(c, b, 3);
    Round0(c, b, 4); Round0(c, b, 5); Round0(c, b, 6); Round0(c, b, 7);
  }

  lemma Rounds0_8(c: State, b: seq<Word>)
    requires |b| == 16 && Agrees0(b, 8) && Rounds(c, b, 8) == S0(8)
    ensures Rounds(c, b, 16) == S0(16)
  {
    hide Rounds, Schedule;
    Round0(c, b, 8); Round0(c, b, 9); Round0(c, b, 10); Round0(c, b, 11);
    Round0(c, b, 12); Round0(c, b, 13); Round0(c, b, 14); Round0(c, b, 15);
  }

  lemma Rounds0_16(c: State, b: seq<Word>)
    requires |b| == 16 && Agrees0(b, 16) && Rounds(c, b, 16) == S0(16)
    ensures Rounds(c, b, 24) == S0(24)
  {
    hide Rounds, Schedule;
    Round0(c, b, 16); Round0(c, b, 17); Round0(c, b, 18); Round0(c, b, 19);
    Round0(c, b, 20); Round0(c, b, 21); Round0(c, b, 22); Round0(c, b, 23);
  }

  lemma Rounds0_24(c: State, b: seq<Word>)
    requires |b| == 16 && Agrees0(b, 24) && Rounds(c, b, 24) == S0(24)
    ensures Rounds(c, b, 32) == S0(32)
  {
    hide Rounds, Schedule;
    Round0(c, b, 24); Round0(c, b, 25); Round0(c, b, 26); Round0(c, b, 27);
    Round0(c, b, 28); Round0(c, b, 29); Round0(c, b, 30); Round0(c, b, 31);
  }

  lemma Rounds0_32(c: State, b: seq<Word>)
    requires |b| == 16 && Agrees0(b, 32) && Rounds(c, b, 32) == S0(32)
    ensures Rounds(c, b, 40) == S0(40)
  {
    hide Rounds, Schedule;
    Round0(c, b, 32); Round0(c, b, 33); Round0(c, b, 34); Round0(c, b, 35);
    Round0(c, b, 36); Round0(c, b, 37); Round0(c, b, 38); Round0(c, b, 39);
  }

  lemma Rounds0_40(c: State, b: seq<Word>)
    requires |b| == 16 && Agrees0(b, 40) && Rounds(c, b, 40) == S0(40)
    ensures Rounds(c, b, 48) == S0(48)
  {
    hide Rounds, Schedule;
    Round0(c, b, 40); Round0(c, b, 41); Round0(c, b, 42); Round0(c, b, 43);
    Round0(c, b, 44); Round0(c, b, 45); Round0(c, b, 46); Round0(c, b, 47);
  }

  lemma Rounds0_48(c: State, b: seq<Word>)
    requires |b| == 16 && Agrees0(b, 48) && Rounds(c, b, 48) == S0(48)
    ensures Rounds(c, b, 56) == S0(56)
  {
    hide Rounds, Schedule;
    Round0(c, b, 48); Round0(c, b, 49); Round0(c, b, 50); Round0(c, b, 51);
    Round0(c, b, 52); Round0(c, b, 53); Round0(c, b, 54); Round0(c, b, 55);
  }

  lemma Rounds0_56(c: State, b: seq<Word>)
    requires |b| == 16 && Agrees0(b, 56) && Rounds(c, b, 56) == S0(56)
    ensures Rounds(c, b, 64) == S0(64)
  {
    hide Rounds, Schedule;
    Round0(c, b, 56); Round0(c, b, 57); Round0(c, b, 58); Round0(c, b, 59);
    Round0(c, b, 60); Round0(c, b, 61); Round0(c, b, 62); Round0(c, b, 63);
  }

  lemma AllRounds0(c: State, b: seq<Word>)
    requires |b| == 16 && c == S0(0) && forall i :: 0 <= i < 16 ==> b[i] == W0(i)
    ensures Rounds(c, b, 64) == S0(64)
  {
    assert Agrees0(b, 0) && Agrees0(b, 8) && Rounds(c, b, 0) == c;
    hide Rounds, Schedule, Agrees0, W0, S0;
    Words0_16(b); Words0_24(b); Words0_32(b); Words0_40(b); Words0_48(b); Words0_56(b);
    Rounds0_0(c, b); Rounds0_8(c, b); Rounds0_16(c, b); Rounds0_24(c, b);
    Rounds0_32(c, b); Rounds0_40(c, b); Rounds0_48(c, b); Rounds0_56(c, b);
  }

  // Compression 1: the last 16 bytes and their padding

  function W1(t: nat): Word
    requires t < 64
  {
    if t < 8 then [0x4b1e5e4a, 0x29ab5f49, 0xffff001d, 0x1dac2b7c, 0x80000000, 0x00000000, 0x00000000, 0x00000000][t]
    else if t < 16 then [0x00000000, 0x00000000, 0x00000000, 0x00000000, 0x00000000, 0x00000000, 0x00000000, 0x00000280][t - 8]
    else if t < 24 then [0x8bd2d587, 0x0ec2c145, 0x21a29a95, 0x6735e185, 0x9e105c43, 0x4cebd204, 0x258e3b5d, 0x1f246aa3][t - 16]
    else if t < 32 then [0xe98f173d, 0xd9a4c001, 0xd0790bb8, 0x96471b19, 0xf18b3e75, 0x9458a38a, 0x188c8f33, 0xda2c463b][t - 24]
    else if t < 40 then [0x77860016, 0x13fa484e, 0xf647589f, 0x49da21be, 0x6f5052e8, 0xeaa08f13, 0x825f7236, 0x9029118a][t - 32]
    else if t < 48 then [0x7d8e0e2c, 0xa3fe1073, 0xc842092f, 0x0a05d5d5, 0x50ecdb53, 0xadf709d2, 0x1d0cc0da, 0x5fcd24d1][t - 40]
    else if t < 56 then [0x20405807, 0x0a256106, 0x251ff4b4, 0x80f6fb4b, 0x3b52d8df, 0x4c5ccdfd, 0x5cef1994, 0x847d44e1][t - 48]
    else [0x6ec7e42f, 0x98bf2a2e, 0x35e4e34c, 0x5035f61d, 0xfd9e331a, 0xd86c39a0, 0x61cdb5cb, 0x86b0b8d5][t - 56]
  }

  function A1(t: nat): Word
    requires t < 68
  {
    if t < 8 then [0x1e59caa8, 0x90ccac7d, 0x6358bff0, 0xbc909a33, 0xb7f888df, 0x1f8aee5c, 0xde845910, 0x98610c20][t]
    else if t < 16 then [0x5600cb82, 0x93b7a01d, 0x6928073f, 0x77ced14b, 0x718e3059, 0x147883a5, 0x568f8b4d, 0xb4109b69][t - 8]
    else if t < 24 then [0x09a2accd, 0x346fa1f2, 0xb85b77bb, 0x8d628d5f, 0xb3eb89c3, 0x097e66b9, 0x6ebaeafa, 0x2cb82542][t - 16]
    else if t < 32 then [0xc29f3a60, 0x4edd9829, 0x0c581004, 0xea6b17f8, 0x593ff620, 0x638fb548, 0xb643bce2, 0xadfd69c0][t - 24]
    else if t < 40 then [0x107d66b6, 0x3ca721e0, 0x60bb3b5c, 0x647e6aea, 0x446ca183, 0x1ae6a1d5, 0xe8951c41, 0xbce0bd6f][t - 32]
    else if t < 48 then [0x07f01c55, 0xf9eeacb3, 0x2efd669a, 0x8ff5ea0b, 0x9fdccde9, 0xccd5d8cd, 0xbe68b761, 0x81925455][t - 40]
    else if t < 56 then [0xc71464c2, 0x1547bb26, 0x0d183c7b, 0x63e9b560, 0x1a0bb7a3, 0x440cafd0, 0xe4c03870, 0x986207b6][t - 48]
    else if t < 64 then [0x0b75edcf, 0x79dbf2fa, 0xe242d533, 0x29c7669f, 0x95eb24e1, 0x6eaf599e, 0xd04c9164, 0x2f89c72b][t - 56]
    else [0xd8f62ad9, 0x0fa69565, 0x1d0734a3, 0xf2b168eb][t - 64]
  }

  function E1(t: nat): Word
    requires t < 68
  {
    if t < 8 then [0x4719f91b, 0x96b18736, 0x4f0103c8, 0xc3c8d8e9, 0xa8a8881c, 0xaf5e1cba, 0x238956e3, 0xc7253cdb][t]
    else if t < 16 then [0xac4d05f0, 0x0a85b9bb, 0xfb09d45b, 0x7961a521, 0xe6f352c1, 0x5038acc6, 0x8fb0e9c7, 0xa56c8572][t - 8]
    else if t < 24 then [0x72f4312b, 0x85b1c84a, 0x9ebad54f, 0xcaf190f9, 0xfd90da1f, 0x77c206ed, 0x0f9e9e62, 0x6649a0d3][t - 16]
    else if t < 32 then [0x0825f906, 0x4a597b15, 0x47d80cc1, 0xe4cfae2a, 0xa483ab49, 0x115c823e, 0xcaf644dd, 0xe0e1f55c][t - 24]
    else if t < 40 then [0x311067ea, 0xa784683f, 0x3d51e8ab, 0xb39bf62a, 0xb843cb79, 0x838891d7, 0x324b8aaf, 0x0c1f827e][t - 32]
    else if t < 48 then [0x0cc789e6, 0x04bfc5b9, 0x385b1aa6, 0xd1e633f1, 0x93c5d091, 0xbb3a2b12, 0x7b582d84, 0xfc610813][t - 40]
    else if t < 56 then [0x4e868ee5, 0x94ccf523, 0x03dca2f5, 0x9ff84168, 0xc6a96b69, 0xf90603b6, 0x5290728a, 0xbdec1198][t - 48]
    else if t < 64 then [0x4d8edce6, 0xba7657e3, 0x47204a1f, 0xfc7a0f87, 0x548a30ba, 0x57e207af, 0x9a612751, 0xf6f1e66a][t - 56]
    else [0x2aabdd52, 0xad314136, 0x6b18f24b, 0x860951d0][t - 64]
  }

  /** The variables a..h after t rounds. */
  function S1(t: nat): State
    requires t <= 64
  {
    State(A1(t + 3), A1(t + 2), A1(t + 1), A1(t), E1(t + 3), E1(t + 2), E1(t + 1), E1(t))
  }

  /** Eight words of a block's schedule are those of the table. */
  predicate Agrees1(b: seq<Word>, t: nat)
    requires |b| == 16 && t <= 56
  {
    && Schedule(b, t) == W1(t) && Schedule(b, t + 1) == W1(t + 1)
    && Schedule(b, t + 2) == W1(t + 2) && Schedule(b, t + 3) == W1(t + 3)
    && Schedule(b, t + 4) == W1(t + 4) && Schedule(b, t + 5) == W1(t + 5)
    && Schedule(b, t + 6) == W1(t + 6) && Schedule(b, t + 7) == W1(t + 7)
  }

  lemma Word1(b: seq<Word>, t: nat)
    requires |b| == 16 && 16 <= t < 64
    requires Schedule(b, t - 2) == W1(t - 2) && Schedule(b, t - 7) == W1(t - 7)
    requires Schedule(b, t - 15) == W1(t - 15) && Schedule(b, t - 16) == W1(t - 16)
    requires NextScheduled(W1(t - 2), W1(t - 7), W1(t - 15), W1(t - 16)) == W1(t)
    ensures Schedule(b, t) == W1(t)
  {
    hide NextScheduled, W1;
  }

  lemma Round1(c: State, b: seq<Word>, t: nat)
    requires t < 64 && |b| == 16 && Rounds(c, b, t) == S1(t) && Schedule(b, t) == W1(t)
    requires Round(S1(t), K(t), W1(t)) == S1(t + 1)
    ensures Rounds(c, b, t + 1) == S1(t + 1)
  {
    hide Round, S1, W1, K;
  }

  lemma Words1_16(b: seq<Word>)
    requires |b| == 16 && Agrees1(b, 0) && Agrees1(b, 8)
    ensures Agrees1(b, 16)
  {
    hide Schedule;
    Word1(b, 16); Word1(b, 17); Word1(b, 18); Word1(b, 19);
    Word1(b, 20); Word1(b, 21); Word1(b, 22); Word1(b, 23);
  }

  lemma Words1_24(b: seq<Word>)
    requires |b| == 16 && Agrees1(b, 8) && Agrees1(b, 16)
    ensures Agrees1(b, 24)
  {
    hide Schedule;
    Word1(b, 24); Word1(b, 25); Word1(b, 26); Word1(b, 27);
    Word1(b, 28); Word1(b, 29); Word1(b, 30); Word1(b, 31);
  }

  lemma Words1_32(b: seq<Word>)
    requires |b| == 16 && Agrees1(b, 16) && Agrees1(b, 24)
    ensures Agrees1(b, 32)
  {
    hide Schedule;
    Word1(b, 32); Word1(b, 33); Word1(b, 34); Word1(b, 35);
    Word1(b, 36); Word1(b, 37); Word1(b, 38); Word1(b, 39);
  }

  lemma Words1_40(b: seq<Word>)
    requires |b| == 16 && Agrees1(b, 24) && Agrees1(b, 32)
    ensures Agrees1(b, 40)
  {
    hide Schedule;
    Word1(b, 40); Word1(b, 41); Word1(b, 42); Word1(b, 43);
    Word1(b, 44); Word1(b, 45); Word1(b, 46); Word1(b, 47);
  }

  lemma Words1_48(b: seq<Word>)
    requires |b| == 16 && Agrees1(b, 32) && Agrees1(b, 40)
    ensures Agrees1(b, 48)
  {
    hide Schedule;
    Word1(b, 48); Word1(b, 49); Word1(b, 50); Word1(b, 51);
    Word1(b, 52); Word1(b, 53); Word1(b, 54); Word1(b, 55);
  }

  lemma Words1_56(b: seq<Word>)
    requires |b| == 16 && Agrees1(b, 40) && Agrees1(b, 48)
    ensures Agrees1(b, 56)
  {
    hide Schedule;
    Word1(b, 56); Word1(b, 57); Word1(b, 58); Word1(b, 59);
    Word1(b, 60); Word1(b, 61); Word1(b, 62); Word1(b, 63);
  }

  lemma Rounds1_0(c: State, b: seq<Word>)
    requires |b| == 16 && Agrees1(b, 0) && Rounds(c, b, 0) == S1(0)
    ensures Rounds(c, b, 8) == S1(8)
  {
    hide Rounds, Schedule;
    Round1(c, b, 0); Round1(c, b, 1); Round1(c, b, 2); Round1(c, b, 3);
    Round1(c, b, 4); Round1(c, b, 5); Round1(c, b, 6); Round1(c, b, 7);
  }

  lemma Rounds1_8(c: State, b: seq<Word>)
    requires |b| == 16 && Agrees1(b, 8) && Rounds(c, b, 8) == S1(8)
    ensures Rounds(c, b, 16) == S1(16)
  {
    hide Rounds, Schedule;
    Round1(c, b, 8); Round1(c, b, 9); Round1(c, b, 10); Round1(c, b, 11);
    Round1(c, b, 12); Round1(c, b, 13); Round1(c, b, 14); Round1(c, b, 15);
  }

  lemma Rounds1_16(c: State, b: seq<Word>)
    requires |b| == 16 && Agrees1(b, 16) && Rounds(c, b, 16) == S1(16)
    ensures Rounds(c, b, 24) == S1(24)
  {
    hide Rounds, Schedule;
    Round1(c, b, 16); Round1(c, b, 17); Round1(c, b, 18); Round1(c, b, 19);
    Round1(c, b, 20); Round1(c, b, 21); Round1(c, b, 22); Round1(c, b, 23);
  }

  lemma Rounds1_24(c: State, b: seq<Word>)
    requires |b| == 16 && Agrees1(b, 24) && Rounds(c, b, 24) == S1(24)
    ensures Rounds(c, b, 32) == S1(32)
  {
    hide Rounds, Schedule;
    Round1(c, b, 24); Round1(c, b, 25); Round1(c, b, 26); Round1(c, b, 27);
    Round1(c, b, 28); Round1(c, b, 29); Round1(c, b, 30); Round1(c, b, 31);
  }

  lemma Rounds1_32(c: State, b: seq<Word>)
    requires |b| == 16 && Agrees1(b, 32) && Rounds(c, b, 32) == S1(32)
    ensures Rounds(c, b, 40) == S1(40)
  {
    hide Rounds, Schedule;
    Round1(c, b, 32); Round1(c, b, 33); Round1(c, b, 34); Round1(c, b, 35);
    Round1(c, b, 36); Round1(c, b, 37); Round1(c, b, 38); Round1(c, b, 39);
  }

  lemma Rounds1_40(c: State, b: seq<Word>)
    requires |b| == 16 && Agrees1(b, 40) && Rounds(c, b, 40) == S1(40)
    ensures Rounds(c, b, 48) == S1(48)
  {
    hide Rounds, Schedule;
    Round1(c, b, 40); Round1(c, b, 41); Round1(c, b, 42); Round1(c, b, 43);
    Round1(c, b, 44); Round1(c, b, 45); Round1(c, b, 46); Round1(c, b, 47);
  }

  lemma Rounds1_48(c: State, b: seq<Word>)
    requires |b| == 16 && Agrees1(b, 48) && Rounds(c, b, 48) == S1(48)
    ensures Rounds(c, b, 56) == S1(56)
  {
    hide Rounds, Schedule;
    Round1(c, b, 48); Round1(c, b, 49); Round1(c, b, 50); Round1(c, b, 51);
    Round1(c, b, 52); Round1(c, b, 53); Round1(c, b, 54); Round1(c, b, 55);
  }

  lemma Rounds1_56(c: State, b: seq<Word>)
    requires |b| == 16 && Agrees1(b, 56) && Rounds(c, b, 56) == S1(56)
    ensures Rounds(c, b, 64) == S1(64)
  {
    hide Rounds, Schedule;
    Round1(c, b, 56); Round1(c, b, 57); Round1(c, b, 58); Round1(c, b, 59);
    Round1(c, b, 60); Round1(c, b, 61); Round1(c, b, 62); Round1(c, b, 63);
  }

  lemma AllRounds1(c: State, b: seq<Word>)
    requires |b| == 16 && c == S1(0) && forall i :: 0 <= i < 16 ==> b[i] == W1(i)
    ensures Rounds(c, b, 64) == S1(64)
  {
    assert Agrees1(b, 0) && Agrees1(b, 8) && Rounds(c, b, 0) == c;
    hide Rounds, Schedule, Agrees1, W1, S1;
    Words1_16(b); Words1_24(b); Words1_32(b); Words1_40(b); Words1_48(b); Words1_56(b);
    Rounds1_0(c, b); Rounds1_8(c, b); Rounds1_16(c, b); Rounds1_24(c, b);
    Rounds1_32(c, b); Rounds1_40(c, b); Rounds1_48(c, b); Rounds1_56(c, b);
  }

  // Compression 2: the digest and its padding

  function W2(t: nat): Word
    requires t < 64
  {
    if t < 8 then [0xaf42031e, 0x805ff493, 0xa07341e2, 0xf74ff581, 0x49d22ab9, 0xba19f613, 0x43e2c86c, 0x71c5d66d][t]
    else if t < 16 then [0x80000000, 0x00000000, 0x00000000, 0x00000000, 0x00000000, 0x00000000, 0x00000000, 0x00000100][t - 8]
    else if t < 24 then [0x7971a48a, 0x82361b36, 0x67a48e69, 0xb734c5d2, 0x6e668466, 0x177942c5, 0x77c799da, 0x857791fa][t - 16]
    else if t < 32 then [0x4201a033, 0xa287de5a, 0x9b440efa, 0x8335294a, 0x9dfe128e, 0xa9747690, 0x50e974e0, 0x6ab00740][t - 24]
    else if t < 40 then [0xac80aaf5, 0x1e6e3f77, 0xade558a9, 0x8d8f55f2, 0xf7b63411, 0x05290e41, 0xc10985fb, 0xdfab0d27][t - 32]
    else if t < 48 then [0xa9661744, 0x1d4ee4f9, 0xc1666cbc, 0xb3f7f51d, 0xc8f90e35, 0x06047752, 0x63d65f71, 0x9dcd608e][t - 40]
    else if t < 56 then [0x104ad3ff, 0x0d13a517, 0xb7381dd4, 0xacd05ef0, 0xcc76e17d, 0x1c6ab98d, 0xa27ce8ea, 0x15953cdb][t - 48]
    else [0xe8675cab, 0x08fbc11b, 0x848fda48, 0x4a1f5410, 0xb4c84067, 0x627b4b7a, 0xf81f4cdc, 0x9bd5aca3][t - 56]
  }

  function A2(t: nat): Word
    requires t < 68
  {
    if t < 8 then [0xa54ff53a, 0x3c6ef372, 0xbb67ae85, 0x6a09e667, 0xab4a8b6b, 0xe8f12634, 0xdd7bfa27, 0xe6ec0284][t]
    else if t < 16 then [0x1ff26718, 0x2c47cb8e, 0x5c147bb3, 0xcde00ab8, 0x90cd3b90, 0xe599023c, 0xb053d4d9, 0xfb9b744c][t - 8]
    else if t < 24 then [0xb0773648, 0xae5aed1e, 0xf3547aab, 0xa406a042, 0x022fe184, 0x82ceadca, 0x400a3e7c, 0x0a4df97b][t - 16]
    else if t < 32 then [0xb0d2618e, 0xc897ff80, 0xc8888de7, 0xaf5a1ef0, 0xdf7db108, 0xd11379d2, 0xadc275fd, 0x14cdb379][t - 24]
    else if t < 40 then [0xdbec618c, 0xe82f242b, 0xab58f29d, 0x15c8de99, 0xc71cd314, 0xaad9f494, 0xb7a4c0cf, 0x765dd4f9][t - 32]
    else if t < 48 then [0x4be4f1ba, 0xc19ed040, 0xc14863d3, 0x7dff285d, 0x7bd4f62d, 0x16adc632, 0xc85903da, 0x5ba5091f][t - 40]
    else if t < 56 then [0x5bc06388, 0xbd3420f7, 0xd890f410, 0xcb2eb43a, 0xa11706c1, 0x0c8f1e74, 0x25889731, 0x4963773d][t - 48]
    else if t < 64 then [0x5644097e, 0x1b6aec9a, 0x1494042b, 0xc6396799, 0xa4006b06, 0xe0540517, 0xd95159d4, 0x36ec7c9d][t - 56]
    else [0x09140215, 0x8537aed4, 0xfb8a04ed, 0x05d8a5a3][t - 64]
  }

  function E2(t: nat): Word
    requires t < 68
  {
    if t < 8 then [0x5be0cd19, 0x1f83d9ab, 0x9b05688c, 0x510e527f, 0x4809e5c0, 0xde72151c, 0xdf96249e, 0x9df1b4a1][t]
    else if t < 16 then [0x40adac05, 0x3e9e8994, 0x425b89e2, 0x3d046e63, 0x7de6c855, 0x68c3074c, 0xfa15a603, 0x93185b03][t - 8]
    else if t < 24 then [0x5e58eb56, 0xa11f0e28, 0x4075280f, 0x74eb6ac0, 0x5abaad0d, 0xdbf4c150, 0xbcff8059, 0xe12c6d23][t - 16]
    else if t < 32 then [0x7204c580, 0x61550f99, 0xeddd1a5c, 0x31e932c6, 0x138d32e5, 0x80f526a0, 0x5fbaac69, 0x198a5ab6][t - 24]
    else if t < 40 then [0x3d7071bb, 0x905a3791, 0x186a1f9e, 0xa13920b8, 0x66ff4050, 0x3182e6e3, 0xf1636397, 0x6bf22f33][t - 32]
    else if t < 48 then [0xcf14cde8, 0x67a66973, 0x6bef97ca, 0x634cadd2, 0x24a6377d, 0xa229dd52, 0x068074b8, 0xb5f70223][t - 40]
    else if t < 56 then [0x72b0749a, 0x6ce3fc01, 0x0cd296e3, 0x77d0a1e8, 0x79d596c0, 0xfe58bbcf, 0xa81000fa, 0x1c4b47e8][t - 48]
    else if t < 64 then [0x83619519, 0x1473aaab, 0x95022602, 0x44ebc8a4, 0x3b2e00b4, 0x87156a54, 0x89169a84, 0x5f3fcb86][t - 56]
    else [0xa41f32e7, 0x49523f55, 0x4654a010, 0x421030e6][t - 64]
  }

  /** The variables a..h after t rounds. */
  function S2(t: nat): State
    requires t <= 64
  {
    State(A2(t + 3), A2(t + 2), A2(t + 1), A2(t), E2(t + 3), E2(t + 2), E2(t + 1), E2(t))
  }

  /** Eight words of a block's schedule are those of the table. */
  predicate Agrees2(b: seq<Word>, t: nat)
    requires |b| == 16 && t <= 56
  {
    && Schedule(b, t) == W2(t) && Schedule(b, t + 1) == W2(t + 1)
    && Schedule(b, t + 2) == W2(t + 2) && Schedule(b, t + 3) == W2(t + 3)
    && Schedule(b, t + 4) == W2(t + 4) && Schedule(b, t + 5) == W2(t + 5)
    && Schedule(b, t + 6) == W2(t + 6) && Schedule(b, t + 7) == W2(t + 7)
  }

  lemma Word2(b: seq<Word>, t: nat)
    requires |b| == 16 && 16 <= t < 64
    requires Schedule(b, t - 2) == W2(t - 2) && Schedule(b, t - 7) == W2(t - 7)
    requires Schedule(b, t - 15) == W2(t - 15) && Schedule(b, t - 16) == W2(t - 16)
    requires NextScheduled(W2(t - 2), W2(t - 7), W2(t - 15), W2(t - 16)) == W2(t)
    ensures Schedule(b, t) == W2(t)
  {
    hide NextScheduled, W2;
  }

  lemma Round2(c: State, b: seq<Word>, t: nat)
    requires t < 64 && |b| == 16 && Rounds(c, b, t) == S2(t) && Schedule(b, t) == W2(t)
    requires Round(S2(t), K(t), W2(t)) == S2(t + 1)
    ensures Rounds(c, b, t + 1) == S2(t + 1)
  {
    hide Round, S2, W2, K;
  }

  lemma Words2_16(b: seq<Word>)
    requires |b| == 16 && Agrees2(b, 0) && Agrees2(b, 8)
    ensures Agrees2(b, 16)
  {
    hide Schedule;
    Word2(b, 16); Word2(b, 17); Word2(b, 18); Word2(b, 19);
    Word2(b, 20); Word2(b, 21); Word2(b, 22); Word2(b, 23);
  }

  lemma Words2_24(b: seq<Word>)
    requires |b| == 16 && Agrees2(b, 8) && Agrees2(b, 16)
    ensures Agrees2(b, 24)
  {
    hide Schedule;
    Word2(b, 24); Word2(b, 25); Word2(b, 26); Word2(b, 27);
    Word2(b, 28); Word2(b, 29); Word2(b, 30); Word2(b, 31);
  }

  lemma Words2_32(b: seq<Word>)
    requires |b| == 16 && Agrees2(b, 16) && Agrees2(b, 24)
    ensures Agrees2(b, 32)
  {
    hide Schedule;
    Word2(b, 32); Word2(b, 33); Word2(b, 34); Word2(b, 35);
    Word2(b, 36); Word2(b, 37); Word2(b, 38); Word2(b, 39);
  }

  lemma Words2_40(b: seq<Word>)
    requires |b| == 16 && Agrees2(b, 24) && Agrees2(b, 32)
    ensures Agrees2(b, 40)
  {
    hide Schedule;
    Word2(b, 40); Word2(b, 41); Word2(b, 42); Word2(b, 43);
    Word2(b, 44); Word2(b, 45); Word2(b, 46); Word2(b, 47);
  }

  lemma Words2_48(b: seq<Word>)
    requires |b| == 16 && Agrees2(b, 32) && Agrees2(b, 40)
    ensures Agrees2(b, 48)
  {
    hide Schedule;
    Word2(b, 48); Word2(b, 49); Word2(b, 50); Word2(b, 51);
    Word2(b, 52); Word2(b, 53); Word2(b, 54); Word2(b, 55);
  }

  lemma Words2_56(b: seq<Word>)
    requires |b| == 16 && Agrees2(b, 40) && Agrees2(b, 48)
    ensures Agrees2(b, 56)
  {
    hide Schedule;
    Word2(b, 56); Word2(b, 57); Word2(b, 58); Word2(b, 59);
    Word2(b, 60); Word2(b, 61); Word2(b, 62); Word2(b, 63);
  }

  lemma Rounds2_0(c: State, b: seq<Word>)
    requires |b| == 16 && Agrees2(b, 0) && Rounds(c, b, 0) == S2(0)
    ensures Rounds(c, b, 8) == S2(8)
  {
    hide Rounds, Schedule;
    Round2(c, b, 0); Round2(c, b, 1); Round2(c, b, 2); Round2(c, b, 3);
    Round2(c, b, 4); Round2(c, b, 5); Round2(c, b, 6); Round2(c, b, 7);
  }

  lemma Rounds2_8(c: State, b: seq<Word>)
    requires |b| == 16 && Agrees2(b, 8) && Rounds(c, b, 8) == S2(8)
    ensures Rounds(c, b, 16) == S2(16)
  {
    hide Rounds, Schedule;
    Round2(c, b, 8); Round2(c, b, 9); Round2(c, b, 10); Round2(c, b, 11);
    Round2(c, b, 12); Round2(c, b, 13); Round2(c, b, 14); Round2(c, b, 15);
  }

  lemma Rounds2_16(c: State, b: seq<Word>)
    requires |b| == 16 && Agrees2(b, 16) && Rounds(c, b, 16) == S2(16)
    ensures Rounds(c, b, 24) == S2(24)
  {
    hide Rounds, Schedule;
    Round2(c, b, 16); Round2(c, b, 17); Round2(c, b, 18); Round2(c, b, 19);
    Round2(c, b, 20); Round2(c, b, 21); Round2(c, b, 22); Round2(c, b, 23);
  }

  lemma Rounds2_24(c: State, b: seq<Word>)
    requires |b| == 16 && Agrees2(b, 24) && Rounds(c, b, 24) == S2(24)
    ensures Rounds(c, b, 32) == S2(32)
  {
    hide Rounds, Schedule;
    Round2(c, b, 24); Round2(c, b, 25); Round2(c, b, 26); Round2(c, b, 27);
    Round2(c, b, 28); Round2(c, b, 29); Round2(c, b, 30); Round2(c, b, 31);
  }

  lemma Rounds2_32(c: State, b: seq<Word>)
    requires |b| == 16 && Agrees2(b, 32) && Rounds(c, b, 32) == S2(32)
    ensures Rounds(c, b, 40) == S2(40)
  {
    hide Rounds, Schedule;
    Round2(c, b, 32); Round2(c, b, 33); Round2(c, b, 34); Round2(c, b, 35);
    Round2(c, b, 36); Round2(c, b, 37); Round2(c, b, 38); Round2(c, b, 39);
  }

  lemma Rounds2_40(c: State, b: seq<Word>)
    requires |b| == 16 && Agrees2(b, 40) && Rounds(c, b, 40) == S2(40)
    ensures Rounds(c, b, 48) == S2(48)
  {
    hide Rounds, Schedule;
    Round2(c, b, 40); Round2(c, b, 41); Round2(c, b, 42); Round2(c, b, 43);
    Round2(c, b, 44); Round2(c, b, 45); Round2(c, b, 46); Round2(c, b, 47);
  }

  lemma Rounds2_48(c: State, b: seq<Word>)
    requires |b| == 16 && Agrees2(b, 48) && Rounds(c, b, 48) == S2(48)
    ensures Rounds(c, b, 56) == S2(56)
  {
    hide Rounds, Schedule;
    Round2(c, b, 48); Round2(c, b, 49); Round2(c, b, 50); Round2(c, b, 51);
    Round2(c, b, 52); Round2(c, b, 53); Round2(c, b, 54); Round2(c, b, 55);
  }

  lemma Rounds2_56(c: State, b: seq<Word>)
    requires |b| == 16 && Agrees2(b, 56) && Rounds(c, b, 56) == S2(56)
    ensures Rounds(c, b, 64) == S2(64)
  {
    hide Rounds, Schedule;
    Round2(c, b, 56); Round2(c, b, 57); Round2(c, b, 58); Round2(c, b, 59);
    Round2(c, b, 60); Round2(c, b, 61); Round2(c, b, 62); Round2(c, b, 63);
  }

  lemma AllRounds2(c: State, b: seq<Word>)
    requires |b| == 16 && c == S2(0) && forall i :: 0 <= i < 16 ==> b[i] == W2(i)
    ensures Rounds(c, b, 64) == S2(64)
  {
    assert Agrees2(b, 0) && Agrees2(b, 8) && Rounds(c, b, 0) == c;
    hide Rounds, Schedule, Agrees2, W2, S2;
    Words2_16(b); Words2_24(b); Words2_32(b); Words2_40(b); Words2_48(b); Words2_56(b);
    Rounds2_0(c, b); Rounds2_8(c, b); Rounds2_16(c, b); Rounds2_24(c, b);
    Rounds2_32(c, b); Rounds2_40(c, b); Rounds2_48(c, b); Rounds2_56(c, b);
  }

  /** The hash value after two blocks, and after the second hash: its last word is zero. */
  lemma LastWordZero(first: seq<Word>, last: seq<Word>, second: seq<Word>)
    requires |first| == |last| == |second| == 16
    requires forall i :: 0 <= i < 16 ==> first[i] == W0(i) && last[i] == W1(i)
    requires second[..8] == StateWords(Compress(Compress(INITIAL, first), last))
    requires forall i :: 8 <= i < 16 ==> second[i] == W2(i)
    ensures Compress(INITIAL, second).h == 0
  {
    Start0();
    AllRounds0(INITIAL, first);
    Between01();
    AllRounds1(S1(0), last);
    Between12();
    var d := Compress(S1(0), last);
    assert StateWords(d) == [W2(0), W2(1), W2(2), W2(3), W2(4), W2(5), W2(6), W2(7)];
    forall i | 0 <= i < 8 ensures second[i] == W2(i) {
      assert second[i] == second[..8][i];
    }
    Start2();
    AllRounds2(INITIAL, second);
    End2();
  }

  lemma Start0()
    ensures S0(0) == INITIAL
  {
  }

  lemma Start2()
    ensures S2(0) == INITIAL
  {
  }

  lemma Between01()
    ensures Add(S0(64), INITIAL) == S1(0)
  {
  }

  lemma Between12()
    ensures Add(S1(64), S1(0)) == State(W2(0), W2(1), W2(2), W2(3), W2(4), W2(5), W2(6), W2(7))
  {
  }

  lemma End2()
    ensures Add(S2(64), INITIAL).h == 0
  {
  }
}
