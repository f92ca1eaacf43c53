/** A known answer: the digest of the text that the library's own test hashes. */
module Md5Vector {
  import opened Bytes
  import opened Md5Model

  /** "admin:8ce748cedf4c:12345". */
  const TEXT: seq<Byte> := [
    97, 100, 109, 105, 110, 58, 56, 99, 101, 55, 52, 56,
    99, 101, 100, 102, 52, 99, 58, 49, 50, 51, 52, 53]

  /** Its one block. */
  const X: Block := [
    0x696d6461, 0x63383a6e, 0x38343765, 0x66646563,
    0x313a6334, 0x35343332, 0x00000080, 0x00000000,
    0x00000000, 0x00000000, 0x00000000, 0x00000000,
    0x00000000, 0x00000000, 0x000000c0, 0x00000000]

  /** What each operation goes through: t lists the registers, f the mixed words, u the sums and v the
      sums turned left. */
  datatype Work = Work(t: seq<Regs>, f: seq<Word>, u: seq<Word>, v: seq<Word>)

  ghost predicate Listed(w: Work) {
    && Traced(X, w.t) && |w.f| == |w.u| == |w.v| == 64
    && forall i {:trigger Turn(w.t[i], X, i)} :: 0 <= i < 64 ==>
      && w.f[i] == Mixed(i, w.t[i].b, w.t[i].c, w.t[i].d)
      && w.u[i] == Plus(Plus(Plus(w.t[i].a, w.f[i]), X[Schedule(i)]), Sine(i))
      && w.v[i] == RotateLeft(w.u[i], Shift(i))
  }

  lemma Mix(w: Work, i: nat, b: Word, c: Word, d: Word, f: Word)
    requires Listed(w) && i < 64 && w.t[i].b == b && w.t[i].c == c && w.t[i].d == d && Mixed(i, b, c, d) == f
    ensures w.f[i] == f
  {
    assert w.t[i + 1] == Turn(w.t[i], X, i);
  }

  lemma Sum(w: Work, i: nat, a: Word, f: Word, u: Word)
    requires Listed(w) && i < 64 && w.t[i].a == a && w.f[i] == f
    requires Plus(Plus(Plus(a, f), X[Schedule(i)]), Sine(i)) == u
    ensures w.u[i] == u
  {
    assert w.t[i + 1] == Turn(w.t[i], X, i);
  }

  lemma Rotate(w: Work, i: nat, u: Word, s: nat, v: Word)
    requires Listed(w) && i < 64 && w.u[i] == u && Shift(i) == s && RotateLeft(u, s) == v
    ensures w.v[i] == v
  {
    assert w.t[i + 1] == Turn(w.t[i], X, i);
  }

  lemma Next(w: Work, i: nat, b: Word)
    requires Listed(w) && i < 64 && Plus(w.v[i], w.t[i].b) == b
    ensures w.t[i + 1] == Regs(w.t[i].d, b, w.t[i].b, w.t[i].c)
  {
    assert w.t[i + 1] == Turn(w.t[i], X, i);
  }

  lemma Operations0To3(w: Work)
    requires Listed(w) && w.t[0] == Regs(0x67452301, 0xefcdab89, 0x98badcfe, 0x10325476)
    ensures w.t[4] == Regs(0x5bd217a9, 0xff5cdccb, 0x1ec36c05, 0x0cf3aa2a)
  {
    assert w.f[0] == 0x98badcfe by { Mix(w, 0, 0xefcdab89, 0x98badcfe, 0x10325476, 0x98badcfe); }
    assert w.u[0] == 0x40d808d8 by { Sum(w, 0, 0x67452301, 0x98badcfe, 0x40d808d8); }
    assert w.v[0] == 0x6c046c20 by { Rotate(w, 0, 0x40d808d8, 7, 0x6c046c20); }
    Next(w, 0, 0x5bd217a9);
    assert w.f[1] == 0xcbe8cbdf by { Mix(w, 1, 0x5bd217a9, 0xefcdab89, 0x98badcfe, 0xcbe8cbdf); }
    assert w.u[1] == 0x281b1219 by { Sum(w, 1, 0x10325476, 0xcbe8cbdf, 0x281b1219); }
    assert w.v[1] == 0xb1219281 by { Rotate(w, 1, 0x281b1219, 12, 0xb1219281); }
    Next(w, 1, 0x0cf3aa2a);
    assert w.f[2] == 0xebde03a9 by { Mix(w, 2, 0x0cf3aa2a, 0x5bd217a9, 0xefcdab89, 0xebde03a9); }
    assert w.u[2] == 0xe0ed88e7 by { Sum(w, 2, 0x98badcfe, 0xebde03a9, 0xe0ed88e7); }
    assert w.v[2] == 0x11cfc1db by { Rotate(w, 2, 0xe0ed88e7, 17, 0x11cfc1db); }
    Next(w, 2, 0x1ec36c05);
    assert w.f[3] == 0x4dd33ba8 by { Mix(w, 3, 0x1ec36c05, 0x0cf3aa2a, 0x5bd217a9, 0x4dd33ba8); }
    assert w.u[3] == 0x65c31b82 by { Sum(w, 3, 0xefcdab89, 0x4dd33ba8, 0x65c31b82); }
    assert w.v[3] == 0xe09970c6 by { Rotate(w, 3, 0x65c31b82, 22, 0xe09970c6); }
    Next(w, 3, 0xff5cdccb);
  }

  lemma Operations4To7(w: Work)
    requires Listed(w) && w.t[4] == Regs(0x5bd217a9, 0xff5cdccb, 0x1ec36c05, 0x0cf3aa2a)
    ensures w.t[8] == Regs(0xb559339b, 0x9e3613d8, 0x644194d3, 0x555a8833)
  {
    assert w.f[4] == 0x1ee36e21 by { Mix(w, 4, 0xff5cdccb, 0x1ec36c05, 0x0cf3aa2a, 0x1ee36e21); }
    assert w.u[4] == 0xa16bf8ad by { Sum(w, 4, 0x5bd217a9, 0x1ee36e21, 0xa16bf8ad); }
    assert w.v[4] == 0xb5fc56d0 by { Rotate(w, 4, 0xa16bf8ad, 7, 0xb5fc56d0); }
    Next(w, 4, 0xb559339b);
    assert w.f[5] == 0xbfda5c8f by { Mix(w, 5, 0xb559339b, 0xff5cdccb, 0x1ec36c05, 0xbfda5c8f); }
    assert w.u[5] == 0x498a0015 by { Sum(w, 5, 0x0cf3aa2a, 0xbfda5c8f, 0x498a0015); }
    assert w.v[5] == 0xa0015498 by { Rotate(w, 5, 0x498a0015, 12, 0xa0015498); }
    Next(w, 5, 0x555a8833);
    assert w.f[6] == 0xbf5c54db by { Mix(w, 6, 0x555a8833, 0xb559339b, 0xff5cdccb, 0xbf5c54db); }
    assert w.u[6] == 0x86500773 by { Sum(w, 6, 0x1ec36c05, 0xbf5c54db, 0x86500773); }
    assert w.v[6] == 0x0ee70ca0 by { Rotate(w, 6, 0x86500773, 17, 0x0ee70ca0); }
    Next(w, 6, 0x644194d3);
    assert w.f[7] == 0xd558a31b by { Mix(w, 7, 0x644194d3, 0x555a8833, 0xb559339b, 0xd558a31b); }
    assert w.u[7] == 0xd1fc14e7 by { Sum(w, 7, 0xff5cdccb, 0xd558a31b, 0xd1fc14e7); }
    assert w.v[7] == 0x39f47f05 by { Rotate(w, 7, 0xd1fc14e7, 22, 0x39f47f05); }
    Next(w, 7, 0x9e3613d8);
  }

  lemma Operations8To11(w: Work)
    requires Listed(w) && w.t[8] == Regs(0xb559339b, 0x9e3613d8, 0x644194d3, 0x555a8833)
    ensures w.t[12] == Regs(0xaf68c70a, 0x1af8b5c8, 0xbfc0a6dd, 0xb8a481f6)
  {
    assert w.f[8] == 0x454898f3 by { Mix(w, 8, 0x9e3613d8, 0x644194d3, 0x555a8833, 0x454898f3); }
    assert w.u[8] == 0x64226566 by { Sum(w, 8, 0xb559339b, 0x454898f3, 0x64226566); }
    assert w.v[8] == 0x1132b332 by { Rotate(w, 8, 0x64226566, 7, 0x1132b332); }
    Next(w, 8, 0xaf68c70a);
    assert w.f[9] == 0xce2113d9 by { Mix(w, 9, 0xaf68c70a, 0x9e3613d8, 0x644194d3, 0xce2113d9); }
    assert w.u[9] == 0xaec093bb by { Sum(w, 9, 0x555a8833, 0xce2113d9, 0xaec093bb); }
    assert w.v[9] == 0x093bbaec by { Rotate(w, 9, 0xaec093bb, 12, 0x093bbaec); }
    Next(w, 9, 0xb8a481f6);
    assert w.f[10] == 0xae32930a by { Mix(w, 10, 0xb8a481f6, 0xaf68c70a, 0x9e3613d8, 0xae32930a); }
    assert w.u[10] == 0x1273838e by { Sum(w, 10, 0x644194d3, 0xae32930a, 0x1273838e); }
    assert w.v[10] == 0x071c24e7 by { Rotate(w, 10, 0x1273838e, 17, 0x071c24e7); }
    Next(w, 10, 0xbfc0a6dd);
    assert w.f[11] == 0xb8a8c1d6 by { Mix(w, 11, 0xbfc0a6dd, 0xb8a481f6, 0xaf68c70a, 0xb8a8c1d6); }
    assert w.u[11] == 0xe03bad6c by { Sum(w, 11, 0x9e3613d8, 0xb8a8c1d6, 0xe03bad6c); }
    assert w.v[11] == 0x5b380eeb by { Rotate(w, 11, 0xe03bad6c, 22, 0x5b380eeb); }
    Next(w, 11, 0x1af8b5c8);
  }

  lemma Operations12To15(w: Work)
    requires Listed(w) && w.t[12] == Regs(0xaf68c70a, 0x1af8b5c8, 0xbfc0a6dd, 0xb8a481f6)
    ensures w.t[16] == Regs(0xf9b74b32, 0x078ac4ad, 0xc433385f, 0xd34cb884)
  {
    assert w.f[12] == 0xbac4a4fe by { Mix(w, 12, 0x1af8b5c8, 0xbfc0a6dd, 0xb8a481f6, 0xbac4a4fe); }
    assert w.u[12] == 0xd5bd7d2a by { Sum(w, 12, 0xaf68c70a, 0xbac4a4fe, 0xd5bd7d2a); }
    assert w.v[12] == 0xdebe956a by { Rotate(w, 12, 0xd5bd7d2a, 7, 0xdebe956a); }
    Next(w, 12, 0xf9b74b32);
    assert w.f[13] == 0x1ef0a5cd by { Mix(w, 13, 0xf9b74b32, 0x1af8b5c8, 0xbfc0a6dd, 0x1ef0a5cd); }
    assert w.u[13] == 0xd52d9956 by { Sum(w, 13, 0xb8a481f6, 0x1ef0a5cd, 0xd52d9956); }
    assert w.v[13] == 0xd9956d52 by { Rotate(w, 13, 0xd52d9956, 12, 0xd9956d52); }
    Next(w, 13, 0xd34cb884);
    assert w.f[14] == 0xd9b40d48 by { Mix(w, 14, 0xd34cb884, 0xf9b74b32, 0x1af8b5c8, 0xd9b40d48); }
    assert w.u[14] == 0x3fedf873 by { Sum(w, 14, 0xbfc0a6dd, 0xd9b40d48, 0x3fedf873); }
    assert w.v[14] == 0xf0e67fdb by { Rotate(w, 14, 0x3fedf873, 17, 0xf0e67fdb); }
    Next(w, 14, 0xc433385f);
    assert w.f[15] == 0xf9847b24 by { Mix(w, 15, 0xc433385f, 0xd34cb884, 0xf9b74b32, 0xf9847b24); }
    assert w.u[15] == 0x5e31390d by { Sum(w, 15, 0x1af8b5c8, 0xf9847b24, 0x5e31390d); }
    assert w.v[15] == 0x43578c4e by { Rotate(w, 15, 0x5e31390d, 22, 0x43578c4e); }
    Next(w, 15, 0x078ac4ad);
  }

  lemma Operations16To19(w: Work)
    requires Listed(w) && w.t[16] == Regs(0xf9b74b32, 0x078ac4ad, 0xc433385f, 0xd34cb884)
    ensures w.t[20] == Regs(0x50b040d8, 0x92d65095, 0xe1f3ca77, 0xdd12ba86)
  {
    assert w.f[16] == 0x073b80df by { Mix(w, 16, 0x078ac4ad, 0xc433385f, 0xd34cb884, 0x073b80df); }
    assert w.u[16] == 0x5a492be1 by { Sum(w, 16, 0xf9b74b32, 0x073b80df, 0x5a492be1); }
    assert w.v[16] == 0x49257c2b by { Rotate(w, 16, 0x5a492be1, 5, 0x49257c2b); }
    Next(w, 16, 0x50b040d8);
    assert w.f[17] == 0x43b8c4f8 by { Mix(w, 17, 0x50b040d8, 0x078ac4ad, 0xc433385f, 0x43b8c4f8); }
    assert w.u[17] == 0xd746313c by { Sum(w, 17, 0xd34cb884, 0x43b8c4f8, 0xd746313c); }
    assert w.v[17] == 0x8c6279ae by { Rotate(w, 17, 0xd746313c, 9, 0x8c6279ae); }
    Next(w, 17, 0xdd12ba86);
    assert w.f[18] == 0x553280d4 by { Mix(w, 18, 0xdd12ba86, 0x50b040d8, 0x078ac4ad, 0x553280d4); }
    assert w.u[18] == 0x3fc41384 by { Sum(w, 18, 0xc433385f, 0x553280d4, 0x3fc41384); }
    assert w.v[18] == 0x04e10ff1 by { Rotate(w, 18, 0x3fc41384, 14, 0x04e10ff1); }
    Next(w, 18, 0xe1f3ca77);
    assert w.f[19] == 0xcdb2fa56 by { Mix(w, 19, 0xe1f3ca77, 0xdd12ba86, 0x50b040d8, 0xcdb2fa56); }
    assert w.u[19] == 0x2861eb0e by { Sum(w, 19, 0x078ac4ad, 0xcdb2fa56, 0x2861eb0e); }
    assert w.v[19] == 0xb0e2861e by { Rotate(w, 19, 0x2861eb0e, 20, 0xb0e2861e); }
    Next(w, 19, 0x92d65095);
  }

  lemma Operations20To23(w: Work)
    requires Listed(w) && w.t[20] == Regs(0x50b040d8, 0x92d65095, 0xe1f3ca77, 0xdd12ba86)
    ensures w.t[24] == Regs(0x33b0fc16, 0x9335f523, 0x764391df, 0x4affda3c)
  {
    assert w.f[20] == 0xb0f350f5 by { Mix(w, 20, 0x92d65095, 0xe1f3ca77, 0xdd12ba86, 0xb0f350f5); }
    assert w.u[20] == 0x0d06d55c by { Sum(w, 20, 0x50b040d8, 0xb0f350f5, 0x0d06d55c); }
    assert w.v[20] == 0xa0daab81 by { Rotate(w, 20, 0x0d06d55c, 5, 0xa0daab81); }
    Next(w, 20, 0x33b0fc16);
    assert w.f[21] == 0x33b4d896 by { Mix(w, 21, 0x33b0fc16, 0x92d65095, 0xe1f3ca77, 0x33b4d896); }
    assert w.u[21] == 0x130ba76f by { Sum(w, 21, 0xdd12ba86, 0x33b4d896, 0x130ba76f); }
    assert w.v[21] == 0x174ede26 by { Rotate(w, 21, 0x130ba76f, 9, 0x174ede26); }
    Next(w, 21, 0x4affda3c);
    assert w.f[22] == 0x23f6fc16 by { Mix(w, 22, 0x4affda3c, 0x33b0fc16, 0x92d65095, 0x23f6fc16); }
    assert w.u[22] == 0xde8cad0e by { Sum(w, 22, 0xe1f3ca77, 0x23f6fc16, 0xde8cad0e); }
    assert w.v[22] == 0x2b43b7a3 by { Rotate(w, 22, 0xde8cad0e, 14, 0x2b43b7a3); }
    Next(w, 22, 0x764391df);
    assert w.f[23] == 0x7a4f923e by { Mix(w, 23, 0x764391df, 0x4affda3c, 0x33b0fc16, 0x7a4f923e); }
    assert w.u[23] == 0x263441cf by { Sum(w, 23, 0x92d65095, 0x7a4f923e, 0x263441cf); }
    assert w.v[23] == 0x1cf26344 by { Rotate(w, 23, 0x263441cf, 20, 0x1cf26344); }
    Next(w, 23, 0x9335f523);
  }

  lemma Operations24To27(w: Work)
    requires Listed(w) && w.t[24] == Regs(0x33b0fc16, 0x9335f523, 0x764391df, 0x4affda3c)
    ensures w.t[28] == Regs(0x0c497114, 0x97ed4a4c, 0x0339b5b8, 0x64f97e3b)
  {
    assert w.f[24] == 0x3635d1e3 by { Mix(w, 24, 0x9335f523, 0x764391df, 0x4affda3c, 0x3635d1e3); }
    assert w.u[24] == 0x8bc89bdf by { Sum(w, 24, 0x33b0fc16, 0x3635d1e3, 0x8bc89bdf); }
    assert w.v[24] == 0x79137bf1 by { Rotate(w, 24, 0x8bc89bdf, 5, 0x79137bf1); }
    Next(w, 24, 0x0c497114);
    assert w.f[25] == 0x85757534 by { Mix(w, 25, 0x0c497114, 0x9335f523, 0x764391df, 0x85757534); }
    assert w.u[25] == 0x93ac5806 by { Sum(w, 25, 0x4affda3c, 0x85757534, 0x93ac5806); }
    assert w.v[25] == 0x58b00d27 by { Rotate(w, 25, 0x93ac5806, 9, 0x58b00d27); }
    Next(w, 25, 0x64f97e3b);
    assert w.f[26] == 0x0c797437 by { Mix(w, 26, 0x64f97e3b, 0x0c497114, 0x9335f523, 0x0c797437); }
    assert w.u[26] == 0xddf67900 by { Sum(w, 26, 0x764391df, 0x0c797437, 0xddf67900); }
    assert w.v[26] == 0x9e40377d by { Rotate(w, 26, 0xddf67900, 14, 0x9e40377d); }
    Next(w, 26, 0x0339b5b8);
    assert w.f[27] == 0x60b93f3b by { Mix(w, 27, 0x0339b5b8, 0x64f97e3b, 0x0c497114, 0x60b93f3b); }
    assert w.u[27] == 0x3949494b by { Sum(w, 27, 0x9335f523, 0x60b93f3b, 0x3949494b); }
    assert w.v[27] == 0x94b39494 by { Rotate(w, 27, 0x3949494b, 20, 0x94b39494); }
    Next(w, 27, 0x97ed4a4c);
  }

  lemma Operations28To31(w: Work)
    requires Listed(w) && w.t[28] == Regs(0x0c497114, 0x97ed4a4c, 0x0339b5b8, 0x64f97e3b)
    ensures w.t[32] == Regs(0x5ad1fe83, 0x391cca99, 0x9d58e3f2, 0x4182b6e4)
  {
    assert w.f[28] == 0x07e9cb88 by { Mix(w, 28, 0x97ed4a4c, 0x0339b5b8, 0x64f97e3b, 0x07e9cb88); }
    assert w.u[28] == 0xbe1725a1 by { Sum(w, 28, 0x0c497114, 0x07e9cb88, 0xbe1725a1); }
    assert w.v[28] == 0xc2e4b437 by { Rotate(w, 28, 0xbe1725a1, 5, 0xc2e4b437); }
    Next(w, 28, 0x5ad1fe83);
    assert w.f[29] == 0x96d5fec4 by { Mix(w, 29, 0x5ad1fe83, 0x97ed4a4c, 0x0339b5b8, 0x96d5fec4); }
    assert w.u[29] == 0x30f3585c by { Sum(w, 29, 0x64f97e3b, 0x96d5fec4, 0x30f3585c); }
    assert w.v[29] == 0xe6b0b861 by { Rotate(w, 29, 0x30f3585c, 9, 0xe6b0b861); }
    Next(w, 29, 0x4182b6e4);
    assert w.f[30] == 0x4990b6c7 by { Mix(w, 30, 0x4182b6e4, 0x5ad1fe83, 0x97ed4a4c, 0x4990b6c7); }
    assert w.u[30] == 0xb4396f58 by { Sum(w, 30, 0x0339b5b8, 0x4990b6c7, 0xb4396f58); }
    assert w.v[30] == 0x5bd62d0e by { Rotate(w, 30, 0xb4396f58, 14, 0x5bd62d0e); }
    Next(w, 30, 0x9d58e3f2);
    assert w.f[31] == 0x1952e2e6 by { Mix(w, 31, 0x9d58e3f2, 0x4182b6e4, 0x5ad1fe83, 0x1952e2e6); }
    assert w.u[31] == 0x3e6a79bc by { Sum(w, 31, 0x97ed4a4c, 0x1952e2e6, 0x3e6a79bc); }
    assert w.v[31] == 0x9bc3e6a7 by { Rotate(w, 31, 0x3e6a79bc, 20, 0x9bc3e6a7); }
    Next(w, 31, 0x391cca99);
  }

  lemma Operations32To35(w: Work)
    requires Listed(w) && w.t[32] == Regs(0x5ad1fe83, 0x391cca99, 0x9d58e3f2, 0x4182b6e4)
    ensures w.t[36] == Regs(0x958d7300, 0x38d6e57a, 0x0e2c2f25, 0x85cbfad5)
  {
    assert w.f[32] == 0xe5c69f8f by { Mix(w, 32, 0x391cca99, 0x9d58e3f2, 0x4182b6e4, 0xe5c69f8f); }
    assert w.u[32] == 0x75c70a86 by { Sum(w, 32, 0x5ad1fe83, 0xe5c69f8f, 0x75c70a86); }
    assert w.v[32] == 0x5c70a867 by { Rotate(w, 32, 0x75c70a86, 4, 0x5c70a867); }
    Next(w, 32, 0x958d7300);
    assert w.f[33] == 0x31c95a6b by { Mix(w, 33, 0x958d7300, 0x391cca99, 0x9d58e3f2, 0x31c95a6b); }
    assert w.u[33] == 0xfabe07d0 by { Sum(w, 33, 0x4182b6e4, 0x31c95a6b, 0xfabe07d0); }
    assert w.v[33] == 0xf03e87d5 by { Rotate(w, 33, 0xfabe07d0, 11, 0xf03e87d5); }
    Next(w, 33, 0x85cbfad5);
    assert w.f[34] == 0x295a434c by { Mix(w, 34, 0x85cbfad5, 0x958d7300, 0x391cca99, 0x295a434c); }
    assert w.u[34] == 0x34508860 by { Sum(w, 34, 0x9d58e3f2, 0x295a434c, 0x34508860); }
    assert w.v[34] == 0x88603450 by { Rotate(w, 34, 0x34508860, 16, 0x88603450); }
    Next(w, 34, 0x0e2c2f25);
    assert w.f[35] == 0x1e6aa6f0 by { Mix(w, 35, 0x0e2c2f25, 0x85cbfad5, 0x958d7300, 0x1e6aa6f0); }
    assert w.u[35] == 0x556caa55 by { Sum(w, 35, 0x391cca99, 0x1e6aa6f0, 0x556caa55); }
    assert w.v[35] == 0x2aaab655 by { Rotate(w, 35, 0x556caa55, 23, 0x2aaab655); }
    Next(w, 35, 0x38d6e57a);
  }

  lemma Operations36To39(w: Work)
    requires Listed(w) && w.t[36] == Regs(0x958d7300, 0x38d6e57a, 0x0e2c2f25, 0x85cbfad5)
    ensures w.t[40] == Regs(0x4433693f, 0x8c1444b0, 0xa5eac831, 0xbabbfcec)
  {
    assert w.f[36] == 0xb331308a by { Mix(w, 36, 0x38d6e57a, 0x0e2c2f25, 0x85cbfad5, 0xb331308a); }
    assert w.u[36] == 0x50b5c83c by { Sum(w, 36, 0x958d7300, 0xb331308a, 0x50b5c83c); }
    assert w.v[36] == 0x0b5c83c5 by { Rotate(w, 36, 0x50b5c83c, 4, 0x0b5c83c5); }
    Next(w, 36, 0x4433693f);
    assert w.f[37] == 0x72c9a360 by { Mix(w, 37, 0x4433693f, 0x38d6e57a, 0x0e2c2f25, 0x72c9a360); }
    assert w.u[37] == 0x75aed112 by { Sum(w, 37, 0x85cbfad5, 0x72c9a360, 0x75aed112); }
    assert w.v[37] == 0x768893ad by { Rotate(w, 37, 0x75aed112, 11, 0x768893ad); }
    Next(w, 37, 0xbabbfcec);
    assert w.f[38] == 0xc65e70a9 by { Mix(w, 38, 0xbabbfcec, 0x4433693f, 0x38d6e57a, 0xc65e70a9); }
    assert w.u[38] == 0xcb45eb2e by { Sum(w, 38, 0x0e2c2f25, 0xc65e70a9, 0xcb45eb2e); }
    assert w.v[38] == 0xeb2ecb45 by { Rotate(w, 38, 0xcb45eb2e, 16, 0xeb2ecb45); }
    Next(w, 38, 0xa5eac831);
    assert w.f[39] == 0x5b625de2 by { Mix(w, 39, 0xa5eac831, 0xbabbfcec, 0x4433693f, 0x5b625de2); }
    assert w.u[39] == 0x52f8ffcc by { Sum(w, 39, 0x38d6e57a, 0x5b625de2, 0x52f8ffcc); }
    assert w.v[39] == 0xe6297c7f by { Rotate(w, 39, 0x52f8ffcc, 23, 0xe6297c7f); }
    Next(w, 39, 0x8c1444b0);
  }

  lemma Operations40To43(w: Work)
    requires Listed(w) && w.t[40] == Regs(0x4433693f, 0x8c1444b0, 0xa5eac831, 0xbabbfcec)
    ensures w.t[44] == Regs(0x8d59cbd0, 0x76531dd8, 0x98038d3c, 0x1bde916b)
  {
    assert w.f[40] == 0x9345706d by { Mix(w, 40, 0x8c1444b0, 0xa5eac831, 0xbabbfcec, 0x9345706d); }
    assert w.u[40] == 0x00145872 by { Sum(w, 40, 0x4433693f, 0x9345706d, 0x00145872); }
    assert w.v[40] == 0x01458720 by { Rotate(w, 40, 0x00145872, 4, 0x01458720); }
    Next(w, 40, 0x8d59cbd0);
    assert w.f[41] == 0xa4a74751 by { Mix(w, 41, 0x8d59cbd0, 0x8c1444b0, 0xa5eac831, 0xa4a74751); }
    assert w.u[41] == 0xb371d098 by { Sum(w, 41, 0xbabbfcec, 0xa4a74751, 0xb371d098); }
    assert w.v[41] == 0x8e84c59b by { Rotate(w, 41, 0xb371d098, 11, 0x8e84c59b); }
    Next(w, 41, 0x1bde916b);
    assert w.f[42] == 0x1a931e0b by { Mix(w, 42, 0x1bde916b, 0x8d59cbd0, 0x8c1444b0, 0x1a931e0b); }
    assert w.u[42] == 0xfbd17c24 by { Sum(w, 42, 0xa5eac831, 0x1a931e0b, 0xfbd17c24); }
    assert w.v[42] == 0x7c24fbd1 by { Rotate(w, 42, 0xfbd17c24, 16, 0x7c24fbd1); }
    Next(w, 42, 0x98038d3c);
    assert w.f[43] == 0x0e84d787 by { Mix(w, 43, 0x98038d3c, 0x1bde916b, 0x8d59cbd0, 0x0e84d787); }
    assert w.u[43] == 0x9f2139bc by { Sum(w, 43, 0x8c1444b0, 0x0e84d787, 0x9f2139bc); }
    assert w.v[43] == 0xde4f909c by { Rotate(w, 43, 0x9f2139bc, 23, 0xde4f909c); }
    Next(w, 43, 0x76531dd8);
  }

  lemma Operations44To47(w: Work)
    requires Listed(w) && w.t[44] == Regs(0x8d59cbd0, 0x76531dd8, 0x98038d3c, 0x1bde916b)
    ensures w.t[48] == Regs(0x421cf75d, 0x7f01a311, 0x2f3a3f75, 0x76b544d5)
  {
    assert w.f[44] == 0xf58e018f by { Mix(w, 44, 0x76531dd8, 0x98038d3c, 0x1bde916b, 0xf58e018f); }
    assert w.u[44] == 0x5cbc9d98 by { Sum(w, 44, 0x8d59cbd0, 0xf58e018f, 0x5cbc9d98); }
    assert w.v[44] == 0xcbc9d985 by { Rotate(w, 44, 0x5cbc9d98, 4, 0xcbc9d985); }
    Next(w, 44, 0x421cf75d);
    assert w.f[45] == 0xac4c67b9 by { Mix(w, 45, 0x421cf75d, 0x76531dd8, 0x98038d3c, 0xac4c67b9); }
    assert w.u[45] == 0xaf069309 by { Sum(w, 45, 0x1bde916b, 0xac4c67b9, 0xaf069309); }
    assert w.v[45] == 0x34984d78 by { Rotate(w, 45, 0xaf069309, 11, 0x34984d78); }
    Next(w, 45, 0x76b544d5);
    assert w.f[46] == 0x42faae50 by { Mix(w, 46, 0x76b544d5, 0x421cf75d, 0x76531dd8, 0x42faae50); }
    assert w.u[46] == 0xfaa0b884 by { Sum(w, 46, 0x98038d3c, 0x42faae50, 0xfaa0b884); }
    assert w.v[46] == 0xb884faa0 by { Rotate(w, 46, 0xfaa0b884, 16, 0xb884faa0); }
    Next(w, 46, 0x2f3a3f75);
    assert w.f[47] == 0x1b938cfd by { Mix(w, 47, 0x2f3a3f75, 0x76b544d5, 0x421cf75d, 0x1b938cfd); }
    assert w.u[47] == 0x8ec7389f by { Sum(w, 47, 0x76531dd8, 0x1b938cfd, 0x8ec7389f); }
    assert w.v[47] == 0x4fc7639c by { Rotate(w, 47, 0x8ec7389f, 23, 0x4fc7639c); }
    Next(w, 47, 0x7f01a311);
  }

  lemma Operations48To51(w: Work)
    requires Listed(w) && w.t[48] == Regs(0x421cf75d, 0x7f01a311, 0x2f3a3f75, 0x76b544d5)
    ensures w.t[52] == Regs(0x8842372d, 0xf32fa808, 0xba7de378, 0x22a6e0b3)
  {
    assert w.f[48] == 0xd071844e by { Mix(w, 48, 0x7f01a311, 0x2f3a3f75, 0x76b544d5, 0xd071844e); }
    assert w.u[48] == 0x70250250 by { Sum(w, 48, 0x421cf75d, 0xd071844e, 0x70250250); }
    assert w.v[48] == 0x0940941c by { Rotate(w, 48, 0x70250250, 6, 0x0940941c); }
    Next(w, 48, 0x8842372d);
    assert w.f[49] == 0xa7c654be by { Mix(w, 49, 0x8842372d, 0x7f01a311, 0x2f3a3f75, 0xa7c654be); }
    assert w.u[49] == 0x61a6992a by { Sum(w, 49, 0x76b544d5, 0xa7c654be, 0x61a6992a); }
    assert w.v[49] == 0x9a64a986 by { Rotate(w, 49, 0x61a6992a, 10, 0x9a64a986); }
    Next(w, 49, 0x22a6e0b3);
    assert w.f[50] == 0x2abccbd2 by { Mix(w, 50, 0x22a6e0b3, 0x8842372d, 0x7f01a311, 0x2abccbd2); }
    assert w.u[50] == 0x058b2fae by { Sum(w, 50, 0x2f3a3f75, 0x2abccbd2, 0x058b2fae); }
    assert w.v[50] == 0x97d702c5 by { Rotate(w, 50, 0x058b2fae, 15, 0x97d702c5); }
    Next(w, 50, 0xba7de378);
    assert w.f[51] == 0xdd5b0b49 by { Mix(w, 51, 0xba7de378, 0x22a6e0b3, 0x8842372d, 0xdd5b0b49); }
    assert w.u[51] == 0x8e2481c5 by { Sum(w, 51, 0x7f01a311, 0xdd5b0b49, 0x8e2481c5); }
    assert w.v[51] == 0x38b1c490 by { Rotate(w, 51, 0x8e2481c5, 21, 0x38b1c490); }
    Next(w, 51, 0xf32fa808);
  }

  lemma Operations52To55(w: Work)
    requires Listed(w) && w.t[52] == Regs(0x8842372d, 0xf32fa808, 0xba7de378, 0x22a6e0b3)
    ensures w.t[56] == Regs(0x9b2af114, 0x98c03304, 0x54382f58, 0x10cc0e26)
  {
    assert w.f[52] == 0x45025c34 by { Mix(w, 52, 0xf32fa808, 0xba7de378, 0x22a6e0b3, 0x45025c34); }
    assert w.u[52] == 0x329fed24 by { Sum(w, 52, 0x8842372d, 0x45025c34, 0x329fed24); }
    assert w.v[52] == 0xa7fb490c by { Rotate(w, 52, 0x329fed24, 6, 0xa7fb490c); }
    Next(w, 52, 0x9b2af114);
    assert w.f[53] == 0x2c85559f by { Mix(w, 53, 0x9b2af114, 0xf32fa808, 0xba7de378, 0x2c85559f); }
    assert w.u[53] == 0x449d6847 by { Sum(w, 53, 0x22a6e0b3, 0x2c85559f, 0x449d6847); }
    assert w.v[53] == 0x75a11d12 by { Rotate(w, 53, 0x449d6847, 10, 0x75a11d12); }
    Next(w, 53, 0x10cc0e26);
    assert w.f[54] == 0x87f6aee3 by { Mix(w, 54, 0x10cc0e26, 0x9b2af114, 0xf32fa808, 0x87f6aee3); }
    assert w.u[54] == 0x426486d8 by { Sum(w, 54, 0xba7de378, 0x87f6aee3, 0x426486d8); }
    assert w.v[54] == 0x436c2132 by { Rotate(w, 54, 0x426486d8, 15, 0x436c2132); }
    Next(w, 54, 0x54382f58);
    assert w.f[55] == 0x643121dd by { Mix(w, 55, 0x54382f58, 0x10cc0e26, 0x9b2af114, 0x643121dd); }
    assert w.u[55] == 0x401d6224 by { Sum(w, 55, 0xf32fa808, 0x643121dd, 0x401d6224); }
    assert w.v[55] == 0x448803ac by { Rotate(w, 55, 0x401d6224, 21, 0x448803ac); }
    Next(w, 55, 0x98c03304);
  }

  lemma Operations56To59(w: Work)
    requires Listed(w) && w.t[56] == Regs(0x9b2af114, 0x98c03304, 0x54382f58, 0x10cc0e26)
    ensures w.t[60] == Regs(0x40932d31, 0x8601d770, 0xb67d626c, 0x83a21339)
  {
    assert w.f[56] == 0xabcbdc85 by { Mix(w, 56, 0x98c03304, 0x54382f58, 0x10cc0e26, 0xabcbdc85); }
    assert w.u[56] == 0xb69f4be8 by { Sum(w, 56, 0x9b2af114, 0xabcbdc85, 0xb69f4be8); }
    assert w.v[56] == 0xa7d2fa2d by { Rotate(w, 56, 0xb69f4be8, 6, 0xa7d2fa2d); }
    Next(w, 56, 0x40932d31);
    assert w.f[57] == 0x7317ceb3 by { Mix(w, 57, 0x40932d31, 0x98c03304, 0x54382f58, 0x7317ceb3); }
    assert w.u[57] == 0x8210c3b9 by { Sum(w, 57, 0x10cc0e26, 0x7317ceb3, 0x8210c3b9); }
    assert w.v[57] == 0x430ee608 by { Rotate(w, 57, 0x8210c3b9, 10, 0x430ee608); }
    Next(w, 57, 0x83a21339);
    assert w.f[58] == 0xa72cf2ca by { Mix(w, 58, 0x83a21339, 0x40932d31, 0x98c03304, 0xa72cf2ca); }
    assert w.u[58] == 0x9e6665b6 by { Sum(w, 58, 0x54382f58, 0xa72cf2ca, 0x9e6665b6); }
    assert w.v[58] == 0x32db4f33 by { Rotate(w, 58, 0x9e6665b6, 15, 0x32db4f33); }
    Next(w, 58, 0xb67d626c);
    assert w.f[59] == 0x3cdfe1d7 by { Mix(w, 59, 0xb67d626c, 0x83a21339, 0x40932d31, 0x3cdfe1d7); }
    assert w.u[59] == 0x23a8267c by { Sum(w, 59, 0x98c03304, 0x3cdfe1d7, 0x23a8267c); }
    assert w.v[59] == 0xcf847504 by { Rotate(w, 59, 0x23a8267c, 21, 0xcf847504); }
    Next(w, 59, 0x8601d770);
  }

  lemma Operations60To63(w: Work)
    requires Listed(w) && w.t[60] == Regs(0x40932d31, 0x8601d770, 0xb67d626c, 0x83a21339)
    ensures w.t[64] == Regs(0xd66cf7dc, 0x20195b2e, 0x89f54fd5, 0x07256e47)
  {
    assert w.f[60] == 0x48209d9a by { Mix(w, 60, 0x8601d770, 0xb67d626c, 0x83a21339, 0x48209d9a); }
    assert w.u[60] == 0xb141ac81 by { Sum(w, 60, 0x40932d31, 0x48209d9a, 0xb141ac81); }
    assert w.v[60] == 0x506b206c by { Rotate(w, 60, 0xb141ac81, 6, 0x506b206c); }
    Next(w, 60, 0xd66cf7dc);
    assert w.f[61] == 0x59ef28af by { Mix(w, 61, 0xd66cf7dc, 0x8601d770, 0xb67d626c, 0x59ef28af); }
    assert w.u[61] == 0x9acc2e1d by { Sum(w, 61, 0x83a21339, 0x59ef28af, 0x9acc2e1d); }
    assert w.v[61] == 0x30b8766b by { Rotate(w, 61, 0x9acc2e1d, 10, 0x30b8766b); }
    Next(w, 61, 0x07256e47);
    assert w.f[62] == 0xa9939913 by { Mix(w, 62, 0x07256e47, 0xd66cf7dc, 0x8601d770, 0xa9939913); }
    assert w.u[62] == 0xc31d059f by { Sum(w, 62, 0xb67d626c, 0xa9939913, 0xc31d059f); }
    assert w.v[62] == 0x82cfe18e by { Rotate(w, 62, 0xc31d059f, 15, 0x82cfe18e); }
    Next(w, 62, 0x89f54fd5);
    assert w.f[63] == 0xaed221b0 by { Mix(w, 63, 0x89f54fd5, 0x07256e47, 0xd66cf7dc, 0xaed221b0); }
    assert w.u[63] == 0x205accb1 by { Sum(w, 63, 0x8601d770, 0xaed221b0, 0x205accb1); }
    assert w.v[63] == 0x96240b59 by { Rotate(w, 63, 0x205accb1, 21, 0x96240b59); }
    Next(w, 63, 0x20195b2e);
  }

  lemma Registers(w: Work)
    requires Listed(w) && w.t[0] == START
    ensures w.t[64] == Regs(0xd66cf7dc, 0x20195b2e, 0x89f54fd5, 0x07256e47)
  {
    Operations0To3(w);
    Operations4To7(w);
    Operations8To11(w);
    Operations12To15(w);
    Operations16To19(w);
    Operations20To23(w);
    Operations24To27(w);
    Operations28To31(w);
    Operations32To35(w);
    Operations36To39(w);
    Operations40To43(w);
    Operations44To47(w);
    Operations48To51(w);
    Operations52To55(w);
    Operations56To59(w);
    Operations60To63(w);
  }

  /** Every trace of the operations ends in the same registers. */
  lemma AllOperations()
    ensures AllTurns(START, X) == Regs(0xd66cf7dc, 0x20195b2e, 0x89f54fd5, 0x07256e47)
  {
    assert Leads(START, X, AllTurns(START, X));
    var t: seq<Regs> :| Traced(X, t) && t[0] == START && t[64] == AllTurns(START, X);
    var f: seq<Word> := seq(64, i requires 0 <= i < 64 => Mixed(i, t[i].b, t[i].c, t[i].d));
    var u: seq<Word> := seq(64, i requires 0 <= i < 64 => Plus(Plus(Plus(t[i].a, f[i]), X[Schedule(i)]), Sine(i)));
    var v: seq<Word> := seq(64, i requires 0 <= i < 64 => RotateLeft(u[i], Shift(i)));
    Registers(Work(t, f, u, v));
  }

  /** The text, the mark behind it, and its length of 192 bits. */
  predicate OneBlock(p: seq<Byte>) {
    |p| == 64 && p[..24] == TEXT && p[24] == 0x80 && p[56] == 192 && forall i :: 24 < i < 64 && i != 56 ==> p[i] == 0
  }

  lemma TextIsBlock()
    ensures OneBlock(Padded(TEXT))
  {
    assert LengthWords(24) == [192, 0];
    TwoWords(192, 0);
    assert Padded(TEXT) == TEXT + ([0x80] + Zeros(31)) + [192, 0, 0, 0, 0, 0, 0, 0];
  }

  lemma BlockIsX(p: seq<Byte>)
    requires OneBlock(p)
    ensures BlockAt(p, 0) == X
  {
    forall k | 0 <= k < 6 ensures WordAt(p, 4 * k) == X[k] { TextWord(p, k); }
    forall k | 6 <= k < 16 ensures WordAt(p, 4 * k) == X[k] {}
  }

  lemma TextWord(p: seq<Byte>, k: nat)
    requires OneBlock(p) && k < 6
    ensures WordAt(p, 4 * k) == X[k]
  {
    assert forall i :: 4 * k <= i < 4 * k + 4 ==> p[i] == TEXT[i];
  }

  lemma TwoWords(x: Word, y: Word)
    ensures AllBytesOf([x, y]) == BytesOf(x) + BytesOf(y)
  {
    assert [x, y][..1] == [x] && [x][..0] == [];
  }

  lemma FourWords(a: Word, b: Word, c: Word, d: Word)
    ensures AllBytesOf([a, b, c, d]) == BytesOf(a) + BytesOf(b) + BytesOf(c) + BytesOf(d)
  {
    assert [a, b, c, d][..3] == [a, b, c] && [a, b, c][..2] == [a, b];
    TwoWords(a, b);
  }

  /** The digest of TEXT is dd1ab23d b706e70f d32cb022 bdc25717. */
  lemma KnownAnswer()
    ensures Md5(TEXT) == [
      0xdd, 0x1a, 0xb2, 0x3d, 0xb7, 0x06, 0xe7, 0x0f,
      0xd3, 0x2c, 0xb0, 0x22, 0xbd, 0xc2, 0x57, 0x17]
  {
    var p := Padded(TEXT);
    TextIsBlock();
    BlockIsX(p);
    AllOperations();
    assert Digested(START, p) == Digested(Compress(START, X), p[64..]) == Compress(START, X);
    var r := Regs(0x3db21add, 0x0fe706b7, 0x22b02cd3, 0x1757c2bd);
    assert Compress(START, X) == r;
    FourWords(r.a, r.b, r.c, r.d);
  }
}
