/** The MD5 context: updated in place by any number of pieces of a message, then finished. */
module Md5 {
  import opened Bytes
  import opened Md5Model

  const S11 := 7
  const S12 := 12
  const S13 := 17
  const S14 := 22
  const S21 := 5
  const S22 := 9
  const S23 := 14
  const S24 := 20
  const S31 := 4
  const S32 := 11
  const S33 := 16
  const S34 := 23
  const S41 := 6
  const S42 := 10
  const S43 := 15
  const S44 := 21

  // ---------------------------------------------------------------- the unrolled transformation

  method FF(ghost t: seq<Regs>, ghost xs: Block, ghost i: nat,
            a: Word, b: Word, c: Word, d: Word, x: Word, s: nat, ac: Word)
    returns (r: Word)
    requires i < 64 && Params(xs, i) == (0, x, s, ac)
    requires Traced(xs, t) && t[i] == Regs(a, b, c, d)
    ensures t[i + 1] == Regs(d, r, b, c)
  {
    r := Plus(a, Plus(Plus(F(b, c, d), x), ac));
    PlusReorders(a, F(b, c, d), x, ac);
    r := RotateLeft(r, s);
    r := Plus(r, b);
    assert t[i + 1] == Turn(t[i], xs, i);
  }

  method GG(ghost t: seq<Regs>, ghost xs: Block, ghost i: nat,
            a: Word, b: Word, c: Word, d: Word, x: Word, s: nat, ac: Word)
    returns (r: Word)
    requires i < 64 && Params(xs, i) == (1, x, s, ac)
    requires Traced(xs, t) && t[i] == Regs(a, b, c, d)
    ensures t[i + 1] == Regs(d, r, b, c)
  {
    r := Plus(a, Plus(Plus(G(b, c, d), x), ac));
    PlusReorders(a, G(b, c, d), x, ac);
    r := RotateLeft(r, s);
    r := Plus(r, b);
    assert t[i + 1] == Turn(t[i], xs, i);
  }

  method HH(ghost t: seq<Regs>, ghost xs: Block, ghost i: nat,
            a: Word, b: Word, c: Word, d: Word, x: Word, s: nat, ac: Word)
    returns (r: Word)
    requires i < 64 && Params(xs, i) == (2, x, s, ac)
    requires Traced(xs, t) && t[i] == Regs(a, b, c, d)
    ensures t[i + 1] == Regs(d, r, b, c)
  {
    r := Plus(a, Plus(Plus(H(b, c, d), x), ac));
    PlusReorders(a, H(b, c, d), x, ac);
    r := RotateLeft(r, s);
    r := Plus(r, b);
    assert t[i + 1] == Turn(t[i], xs, i);
  }

  method II(ghost t: seq<Regs>, ghost xs: Block, ghost i: nat,
            a: Word, b: Word, c: Word, d: Word, x: Word, s: nat, ac: Word)
    returns (r: Word)
    requires i < 64 && Params(xs, i) == (3, x, s, ac)
    requires Traced(xs, t) && t[i] == Regs(a, b, c, d)
    ensures t[i + 1] == Regs(d, r, b, c)
  {
    r := Plus(a, Plus(Plus(I(b, c, d), x), ac));
    PlusReorders(a, I(b, c, d), x, ac);
    r := RotateLeft(r, s);
    r := Plus(r, b);
    assert t[i + 1] == Turn(t[i], xs, i);
  }

  /** Lines 1 to 8. */
  method Lines1To8(x: Block, r: Regs, ghost t: seq<Regs>) returns (q: Regs)
    requires Traced(x, t) && t[0] == r
    ensures t[8] == q
  {
    var (a, b, c, d) := (r.a, r.b, r.c, r.d);
    a := FF(t, x, 0, a, b, c, d, x[0], S11, 0xd76aa478);
    d := FF(t, x, 1, d, a, b, c, x[1], S12, 0xe8c7b756);
    c := FF(t, x, 2, c, d, a, b, x[2], S13, 0x242070db);
    b := FF(t, x, 3, b, c, d, a, x[3], S14, 0xc1bdceee);
    a := FF(t, x, 4, a, b, c, d, x[4], S11, 0xf57c0faf);
    d := FF(t, x, 5, d, a, b, c, x[5], S12, 0x4787c62a);
    c := FF(t, x, 6, c, d, a, b, x[6], S13, 0xa8304613);
    b := FF(t, x, 7, b, c, d, a, x[7], S14, 0xfd469501);
    q := Regs(a, b, c, d);
  }

  /** Lines 9 to 16. */
  method Lines9To16(x: Block, r: Regs, ghost t: seq<Regs>) returns (q: Regs)
    requires Traced(x, t) && t[8] == r
    ensures t[16] == q
  {
    var (a, b, c, d) := (r.a, r.b, r.c, r.d);
    a := FF(t, x, 8, a, b, c, d, x[8], S11, 0x698098d8);
    d := FF(t, x, 9, d, a, b, c, x[9], S12, 0x8b44f7af);
    c := FF(t, x, 10, c, d, a, b, x[10], S13, 0xffff5bb1);
    b := FF(t, x, 11, b, c, d, a, x[11], S14, 0x895cd7be);
    a := FF(t, x, 12, a, b, c, d, x[12], S11, 0x6b901122);
    d := FF(t, x, 13, d, a, b, c, x[13], S12, 0xfd987193);
    c := FF(t, x, 14, c, d, a, b, x[14], S13, 0xa679438e);
    b := FF(t, x, 15, b, c, d, a, x[15], S14, 0x49b40821);
    q := Regs(a, b, c, d);
  }

  /** Lines 17 to 24. */
  method Lines17To24(x: Block, r: Regs, ghost t: seq<Regs>) returns (q: Regs)
    requires Traced(x, t) && t[16] == r
    ensures t[24] == q
  {
    var (a, b, c, d) := (r.a, r.b, r.c, r.d);
    a := GG(t, x, 16, a, b, c, d, x[1], S21, 0xf61e2562);
    d := GG(t, x, 17, d, a, b, c, x[6], S22, 0xc040b340);
    c := GG(t, x, 18, c, d, a, b, x[11], S23, 0x265e5a51);
    b := GG(t, x, 19, b, c, d, a, x[0], S24, 0xe9b6c7aa);
    a := GG(t, x, 20, a, b, c, d, x[5], S21, 0xd62f105d);
    d := GG(t, x, 21, d, a, b, c, x[10], S22, 0x02441453);
    c := GG(t, x, 22, c, d, a, b, x[15], S23, 0xd8a1e681);
    b := GG(t, x, 23, b, c, d, a, x[4], S24, 0xe7d3fbc8);
    q := Regs(a, b, c, d);
  }

  /** Lines 25 to 32. */
  method Lines25To32(x: Block, r: Regs, ghost t: seq<Regs>) returns (q: Regs)
    requires Traced(x, t) && t[24] == r
    ensures t[32] == q
  {
    var (a, b, c, d) := (r.a, r.b, r.c, r.d);
    a := GG(t, x, 24, a, b, c, d, x[9], S21, 0x21e1cde6);
    d := GG(t, x, 25, d, a, b, c, x[14], S22, 0xc33707d6);
    c := GG(t, x, 26, c, d, a, b, x[3], S23, 0xf4d50d87);
    b := GG(t, x, 27, b, c, d, a, x[8], S24, 0x455a14ed);
    a := GG(t, x, 28, a, b, c, d, x[13], S21, 0xa9e3e905);
    d := GG(t, x, 29, d, a, b, c, x[2], S22, 0xfcefa3f8);
    c := GG(t, x, 30, c, d, a, b, x[7], S23, 0x676f02d9);
    b := GG(t, x, 31, b, c, d, a, x[12], S24, 0x8d2a4c8a);
    q := Regs(a, b, c, d);
  }

  /** Lines 33 to 40. */
  method Lines33To40(x: Block, r: Regs, ghost t: seq<Regs>) returns (q: Regs)
    requires Traced(x, t) && t[32] == r
    ensures t[40] == q
  {
    var (a, b, c, d) := (r.a, r.b, r.c, r.d);
    a := HH(t, x, 32, a, b, c, d, x[5], S31, 0xfffa3942);
    d := HH(t, x, 33, d, a, b, c, x[8], S32, 0x8771f681);
    c := HH(t, x, 34, c, d, a, b, x[11], S33, 0x6d9d6122);
    b := HH(t, x, 35, b, c, d, a, x[14], S34, 0xfde5380c);
    a := HH(t, x, 36, a, b, c, d, x[1], S31, 0xa4beea44);
    d := HH(t, x, 37, d, a, b, c, x[4], S32, 0x4bdecfa9);
    c := HH(t, x, 38, c, d, a, b, x[7], S33, 0xf6bb4b60);
    b := HH(t, x, 39, b, c, d, a, x[10], S34, 0xbebfbc70);
    q := Regs(a, b, c, d);
  }

  /** Lines 41 to 48. */
  method Lines41To48(x: Block, r: Regs, ghost t: seq<Regs>) returns (q: Regs)
    requires Traced(x, t) && t[40] == r
    ensures t[48] == q
  {
    var (a, b, c, d) := (r.a, r.b, r.c, r.d);
    a := HH(t, x, 40, a, b, c, d, x[13], S31, 0x289b7ec6);
    d := HH(t, x, 41, d, a, b, c, x[0], S32, 0xeaa127fa);
    c := HH(t, x, 42, c, d, a, b, x[3], S33, 0xd4ef3085);
    b := HH(t, x, 43, b, c, d, a, x[6], S34, 0x04881d05);
    a := HH(t, x, 44, a, b, c, d, x[9], S31, 0xd9d4d039);
    d := HH(t, x, 45, d, a, b, c, x[12], S32, 0xe6db99e5);
    c := HH(t, x, 46, c, d, a, b, x[15], S33, 0x1fa27cf8);
    b := HH(t, x, 47, b, c, d, a, x[2], S34, 0xc4ac5665);
    q := Regs(a, b, c, d);
  }

  /** Lines 49 to 56. */
  method Lines49To56(x: Block, r: Regs, ghost t: seq<Regs>) returns (q: Regs)
    requires Traced(x, t) && t[48] == r
    ensures t[56] == q
  {
    var (a, b, c, d) := (r.a, r.b, r.c, r.d);
    a := II(t, x, 48, a, b, c, d, x[0], S41, 0xf4292244);
    d := II(t, x, 49, d, a, b, c, x[7], S42, 0x432aff97);
    c := II(t, x, 50, c, d, a, b, x[14], S43, 0xab9423a7);
    b := II(t, x, 51, b, c, d, a, x[5], S44, 0xfc93a039);
    a := II(t, x, 52, a, b, c, d, x[12], S41, 0x655b59c3);
    d := II(t, x, 53, d, a, b, c, x[3], S42, 0x8f0ccc92);
    c := II(t, x, 54, c, d, a, b, x[10], S43, 0xffeff47d);
    b := II(t, x, 55, b, c, d, a, x[1], S44, 0x85845dd1);
    q := Regs(a, b, c, d);
  }

  /** Lines 57 to 64. */
  method Lines57To64(x: Block, r: Regs, ghost t: seq<Regs>) returns (q: Regs)
    requires Traced(x, t) && t[56] == r
    ensures t[64] == q
  {
    var (a, b, c, d) := (r.a, r.b, r.c, r.d);
    a := II(t, x, 56, a, b, c, d, x[8], S41, 0x6fa87e4f);
    d := II(t, x, 57, d, a, b, c, x[15], S42, 0xfe2ce6e0);
    c := II(t, x, 58, c, d, a, b, x[6], S43, 0xa3014314);
    b := II(t, x, 59, b, c, d, a, x[13], S44, 0x4e0811a1);
    a := II(t, x, 60, a, b, c, d, x[4], S41, 0xf7537e82);
    d := II(t, x, 61, d, a, b, c, x[11], S42, 0xbd3af235);
    c := II(t, x, 62, c, d, a, b, x[2], S43, 0x2ad7d2bb);
    b := II(t, x, 63, b, c, d, a, x[9], S44, 0xeb86d391);
    q := Regs(a, b, c, d);
  }

  /** The 64 lines compute what the loop with rotating registers computes (AllTurnsIsLoop). */
  method AllLines(x: Block, r: Regs) returns (q: Regs)
    ensures q == AllTurns(r, x)
  {
    assert Leads(r, x, AllTurns(r, x));
    ghost var t :| Traced(x, t) && t[0] == r && t[64] == AllTurns(r, x);
    q := Lines1To8(x, r, t);
    q := Lines9To16(x, q, t);
    q := Lines17To24(x, q, t);
    q := Lines25To32(x, q, t);
    q := Lines33To40(x, q, t);
    q := Lines41To48(x, q, t);
    q := Lines49To56(x, q, t);
    q := Lines57To64(x, q, t);
  }

  // ---------------------------------------------------------------- byte and word arrays

  method Encode(output: array<Byte>, input: array<Word>, len: nat)
    requires len % 4 == 0 && len <= output.Length && len / 4 <= input.Length
    modifies output
    ensures output[..len] == AllBytesOf(input[..len / 4])
  {
    var i, j := 0, 0;
    while j < len
      invariant j == 4 * i && j <= len
      invariant output[..j] == AllBytesOf(input[..i])
    {
      output[j] := input[i] % 256;
      output[j + 1] := input[i] / 256 % 256;
      output[j + 2] := input[i] / 65536 % 256;
      output[j + 3] := input[i] / 16777216 % 256;
      assert input[..i + 1][..i] == input[..i];
      assert output[..j + 4] == output[..j] + BytesOf(input[i]);
      i, j := i + 1, j + 4;
    }
    assert i == len / 4;
  }

  method Decode(output: array<Word>, input: array<Byte>, off: nat, len: nat)
    requires len % 4 == 0 && off + len <= input.Length && len / 4 <= output.Length
    modifies output
    ensures forall k :: 0 <= k < len / 4 ==> output[k] == WordAt(input[..], off + 4 * k)
  {
    var i, j := 0, 0;
    while j < len
      invariant j == 4 * i && j <= len
      invariant forall k :: 0 <= k < i ==> output[k] == WordAt(input[..], off + 4 * k)
    {
      output[i] := input[off + j] as nat + 256 * input[off + j + 1] as nat
        + 65536 * input[off + j + 2] as nat + 16777216 * input[off + j + 3] as nat;
      i, j := i + 1, j + 4;
    }
  }

  method LoadBlock(block: array<Byte>, off: nat) returns (x: Block)
    requires off + 64 <= block.Length
    ensures x == BlockAt(block[..], off)
  {
    var words := new Word[16](_ => 0);
    Decode(words, block, off, 64);
    x := words[..];
    assert x == BlockAt(block[..], off);
  }

  method Copy(output: array<Byte>, at: nat, input: array<Byte>, from: nat, len: nat)
    requires output != input && at + len <= output.Length && from + len <= input.Length
    modifies output
    ensures output[..at + len] == old(output[..at]) + input[from..from + len]
    ensures output[at + len..] == old(output[at + len..])
  {
    var i := 0;
    while i < len
      invariant i <= len
      invariant output[..at + i] == old(output[..at]) + input[from..from + i]
      invariant output[at + i..] == old(output[at + i..])
    {
      output[at + i] := input[from + i];
      i := i + 1;
    }
  }

  class Context {
    const state: array<Word>
    const count: array<Word>
    const buffer: array<Byte>
    /** Every byte given to Update so far, and how often the bit count has passed 2^64. */
    ghost var message: seq<Byte>
    ghost var laps: nat

    predicate Shaped()
    {
      && state.Length == 4 && count.Length == 2 && buffer.Length == 64
      && state != count
    }

    function Registers(): Regs
      reads state
      requires Shaped()
    {
      Regs(state[0], state[1], state[2], state[3])
    }

    /** The context stands for its message. */
    ghost predicate Valid()
      reads this, state, count, buffer
    {
      && Shaped()
      && Registers() == Digested(START, message)
      && buffer[..|message| % 64] == Rest(message)
      && Counts(|message|, count[0], count[1], laps)
    }

    constructor ()
      ensures Valid() && message == [] && fresh(state) && fresh(count) && fresh(buffer)
    {
      state := new Word[4](_ => 0);
      count := new Word[2](_ => 0);
      buffer := new Byte[64](_ => 0);
      new;
      Init();
    }

    /** MD5_Init. */
    method Init()
      requires Shaped()
      modifies this, state, count
      ensures Valid() && message == []
    {
      count[0], count[1] := 0, 0;
      state[0], state[1], state[2], state[3] := START.a, START.b, START.c, START.d;
      message, laps := [], 0;
    }

    /** MD5Transform. */
    method Transform(block: array<Byte>, off: nat)
      requires Shaped() && off + 64 <= block.Length
      modifies state
      ensures Registers() == Compress(old(Registers()), BlockAt(block[..], off))
    {
      var x := LoadBlock(block, off);
      var r := Registers();
      var q := AllLines(x, r);
      state[0] := Plus(state[0], q.a);
      state[1] := Plus(state[1], q.b);
      state[2] := Plus(state[2], q.c);
      state[3] := Plus(state[3], q.d);
      assert Registers() == PlusRegs(r, q);
    }

    /** The two-word bit count of MD5_Update. */
    method AddBits(inputLen: Word)
      requires Shaped() && Counts(|message|, count[0], count[1], laps)
      modifies count, `laps
      ensures Counts(|message| + inputLen, count[0], count[1], laps)
    {
      var bits := 8 * inputLen % WORD;
      var carry := 0;
      ghost var lo, hi := count[0], count[1];
      count[0] := Plus(count[0], bits);
      if count[0] < bits {
        carry := 1;
        count[1] := Plus(count[1], 1);
      }
      count[1] := Plus(count[1], inputLen / 0x2000_0000);
      CountsAdd(|message|, lo, hi, laps, inputLen, carry);
      laps := laps + if hi + carry + inputLen / 0x2000_0000 < WORD then 0 else 1;
    }

    /** The buffered bytes are completed to a block. */
    method CompleteBlock(input: array<Byte>, index: nat)
      requires Shaped() && 64 - index <= input.Length && input != buffer
      requires index == |message| % 64
      requires Registers() == Digested(START, message) && buffer[..index] == Rest(message)
      modifies state, buffer
      ensures Holds(message + input[..64 - index])
      ensures buffer[..] == old(buffer[..index]) + input[..64 - index]
    {
      Copy(buffer, index, input, 0, 64 - index);
      ghost var s := message;
      OneBlock(START, s, input[..64 - index]);
      assert buffer[..] == Rest(s) + input[..64 - index];
      Transform(buffer, 0);
    }

    /** The registers digest s, which is whole blocks. */
    ghost predicate Holds(s: seq<Byte>)
      reads state
      requires Shaped()
    {
      Registers() == Digested(START, s) && Rest(s) == []
    }

    /** A whole block is taken from the input. */
    method NextBlock(input: array<Byte>, i: nat)
      requires Shaped() && i + 64 <= input.Length && Holds(message + input[..i])
      modifies state
      ensures Holds(message + input[..i + 64])
    {
      OneBlockOf(START, message, input[..], i);
      assert input[..][..i] == input[..i] && input[..][..i + 64] == input[..i + 64];
      Transform(input, i);
    }

    /** The buffered bytes completed to a block, and every further whole block of the input. */
    method Blocks(input: array<Byte>, inputLen: Word, index: nat) returns (i: nat)
      requires Shaped() && inputLen <= input.Length && input != buffer
      requires index == |message| % 64 && 64 - index <= inputLen && StopsInTime(index, inputLen)
      requires Registers() == Digested(START, message) && buffer[..index] == Rest(message)
      modifies state, buffer
      ensures i == LastBlockEnd(index, inputLen) && Holds(message + input[..i])
      ensures buffer[..] == FirstBlock(old(buffer[..]), index, input[..inputLen])
    {
      var partLen := 64 - index;
      CompleteBlock(input, index);
      assert input[..inputLen][..partLen] == input[..partLen];
      ghost var block := buffer[..];
      i := partLen;
      ghost var last := LastBlockEnd(index, inputLen);
      GuardIsRight(index, inputLen, i);
      while MoreBlocks(i, inputLen)
        invariant i <= last && (index + i) % 64 == 0 && (MoreBlocks(i, inputLen) <==> i < last)
        invariant Holds(message + input[..i]) && buffer[..] == block
        decreases last - i
      {
        GuardIsRight(index, inputLen, i);
        NextBlock(input, i);
        i := i + 64;
        GuardIsRight(index, inputLen, i);
      }
    }

    /** The input that completes no block goes to the buffer. */
    method Keep(input: array<Byte>, inputLen: nat, index: nat, i: nat)
      requires Shaped() && i <= inputLen <= input.Length && input != buffer
      requires index == (|message| + i) % 64 && index + inputLen - i < 64
      requires Registers() == Digested(START, message + input[..i]) && buffer[..index] == Rest(message + input[..i])
      requires Counts(|message| + inputLen, count[0], count[1], laps)
      modifies `message, buffer
      ensures Valid() && message == old(message) + input[..inputLen]
      ensures buffer[..] == old(buffer[..index]) + input[i..inputLen] + old(buffer[index + inputLen - i..])
    {
      ghost var s := message + input[..i];
      NoBlock(START, s, input[i..inputLen]);
      assert s + input[i..inputLen] == message + input[..inputLen];
      Copy(buffer, index, input, i, inputLen - i);
      assert buffer[..] == buffer[..index + inputLen - i] + buffer[index + inputLen - i..];
      message := message + input[..inputLen];
    }

    /** The bytes of a piece that is already counted: it completes a block ... */
    method AbsorbBlocks(input: array<Byte>, inputLen: Word, index: nat)
      requires Shaped() && inputLen <= input.Length && input != buffer
      requires index == |message| % 64 && 64 - index <= inputLen && StopsInTime(index, inputLen)
      requires Registers() == Digested(START, message) && buffer[..index] == Rest(message)
      requires Counts(|message| + inputLen, count[0], count[1], laps)
      modifies `message, state, buffer
      ensures Valid() && message == old(message) + input[..inputLen]
      ensures buffer[..] == BufferAfter(old(buffer[..]), index, input[..inputLen])
    {
      ghost var before, piece := buffer[..], input[..inputLen];
      var i := Blocks(input, inputLen, index);
      assert input[i..inputLen] == piece[i..];
      Keep(input, inputLen, 0, i);
      KeptIsRefilled(before, index, piece, i);
      FullPiece(before, index, piece, i);
    }

    /** ... or not. */
    method Absorb(input: array<Byte>, inputLen: Word, index: nat)
      requires Shaped() && inputLen <= input.Length && input != buffer
      requires index == |message| % 64 && StopsInTime(index, inputLen)
      requires Registers() == Digested(START, message) && buffer[..index] == Rest(message)
      requires Counts(|message| + inputLen, count[0], count[1], laps)
      modifies `message, state, buffer
      ensures Valid() && message == old(message) + input[..inputLen]
      ensures buffer[..] == BufferAfter(old(buffer[..]), index, input[..inputLen])
    {
      if inputLen >= 64 - index {
        AbsorbBlocks(input, inputLen, index);
      } else {
        assert message + input[..0] == message;
        Keep(input, inputLen, index, 0);
      }
    }

    /** MD5_Update: the context stands for the message with the new piece appended. */
    method Update(input: array<Byte>, inputLen: Word)
      requires Valid() && inputLen <= input.Length && input != buffer
      requires StopsInTime(|message| % 64, inputLen)
      modifies `message, `laps, state, count, buffer
      ensures Valid() && message == old(message) + input[..inputLen]
      ensures buffer[..] == BufferAfter(old(buffer[..]), old(|message|) % 64, input[..inputLen])
    {
      CountsIndex(|message|, count[0], count[1], laps);
      var index := count[0] / 8 % 64;
      AddBits(inputLen);
      Absorb(input, inputLen, index);
    }

    /** MD5_Final: the digest of the whole message, after which the context is zeroized. */
    method Final(digest: array<Byte>)
      requires Valid() && digest.Length == 16 && digest != buffer
      modifies digest, `message, `laps, state, count, buffer
      ensures digest[..] == Md5(old(message))
      ensures Shaped() && Registers() == Regs(0, 0, 0, 0) && count[0] == count[1] == 0 && buffer[..] == Zeros(64)
    {
      Finish();
      Encode(digest, state, 16);
      assert state[..4] == [state[0], state[1], state[2], state[3]];
      Clear();
    }

    /** The padding and the length before it are two more updates. */
    method Finish()
      requires Valid()
      modifies `message, `laps, state, count, buffer
      ensures Valid() && message == Padded(old(message))
    {
      var bits := new Byte[8](_ => 0);
      Encode(bits, count, 8);
      CountsLength(|message|, count[0], count[1], laps);
      assert count[..2] == LengthWords(|message|);
      Pad();
      assert bits[..8] == bits[..];
      Update(bits, 8);
    }

    method Pad()
      requires Valid()
      modifies `message, `laps, state, count, buffer
      ensures Valid() && message == old(message + Padding(|message|))
    {
      CountsIndex(|message|, count[0], count[1], laps);
      var index := count[0] / 8 % 64;
      var padLen := if index < 56 then 56 - index else 120 - index;
      var padding := new Byte[64](i => if i == 0 then 0x80 else 0);
      assert padding[..padLen] == Padding(|message|);
      Update(padding, padLen);
    }

    method Clear()
      requires Shaped()
      modifies state, count, buffer
      ensures Registers() == Regs(0, 0, 0, 0) && count[0] == count[1] == 0 && buffer[..] == Zeros(64)
    {
      state[0], state[1], state[2], state[3] := 0, 0, 0, 0;
      count[0], count[1] := 0, 0;
      forall i | 0 <= i < 64 {
        buffer[i] := 0;
      }
    }
  }

  /** However the same message was split into Update calls, two contexts hold the same registers,
      the same count and the same buffered bytes; for the stale bytes behind those see
      SameBufferExactlyWhen. */
  lemma SplitsAgree(c: Context, k: Context)
    requires c.Valid() && k.Valid() && c.message == k.message
    ensures c.Registers() == k.Registers() && c.count[..] == k.count[..]
    ensures c.buffer[..|c.message| % 64] == k.buffer[..|k.message| % 64]
  {
    CountsLength(|c.message|, c.count[0], c.count[1], c.laps);
    CountsLength(|k.message|, k.count[0], k.count[1], k.laps);
    assert c.count[..] == LengthWords(|c.message|) && k.count[..] == LengthWords(|k.message|);
  }

  /** MD5 on a whole message in one call. */
  method Digest(d: array<Byte>, n: Word, md: array<Byte>)
    requires n <= d.Length && md.Length == 16
    modifies md
    ensures md[..] == Md5(old(d[..n]))
  {
    var c := new Context();
    assert c.message + d[..n] == d[..n];
    c.Update(d, n);
    c.Final(md);
  }
}
