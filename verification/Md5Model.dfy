/** The MD5 message-digest algorithm after RFC 1321, section 3: the compression function as a loop
    with rotating registers, padding, and the digest of a whole message. */
module Md5Model {
  import opened Bytes
  import opened Sequences

  const WORD: nat := 0x1_0000_0000

  /** UINT4, a four-byte unsigned word. */
  type Word = w: nat | w < 0x1_0000_0000

  // ---------------------------------------------------------------- operations on words

  function OfBits(b: bv32): Word {
    b as Word
  }

  function F(x: Word, y: Word, z: Word): Word {
    var (a, b, c) := (x as bv32, y as bv32, z as bv32);
    OfBits((a & b) | (!a & c))
  }

  function G(x: Word, y: Word, z: Word): Word {
    var (a, b, c) := (x as bv32, y as bv32, z as bv32);
    OfBits((a & c) | (b & !c))
  }

  function H(x: Word, y: Word, z: Word): Word {
    OfBits(x as bv32 ^ y as bv32 ^ z as bv32)
  }

  function I(x: Word, y: Word, z: Word): Word {
    var (a, b, c) := (x as bv32, y as bv32, z as bv32);
    OfBits(b ^ (a | !c))
  }

  function RotateLeft(x: Word, n: nat): Word
    requires n < 32
  {
    var b := x as bv32;
    OfBits((b << n) | (b >> (32 - n)))
  }

  /** Addition modulo 2^32. */
  function Plus(x: Word, y: Word): Word {
    if x + y < WORD then x + y else x + y - WORD
  }

  lemma PlusReorders(a: Word, f: Word, x: Word, t: Word)
    ensures Plus(a, Plus(Plus(f, x), t)) == Plus(Plus(Plus(a, f), x), t)
  {
  }

  // ---------------------------------------------------------------- the compression function

  datatype Regs = Regs(a: Word, b: Word, c: Word, d: Word)

  /** Sixteen words of a message block. */
  type Block = x: seq<Word> | |x| == 16 witness seq(16, _ => 0)

  /** The word of the block that operation i reads. */
  function Schedule(i: nat): (k: nat)
    requires i < 64
    ensures k < 16
  {
    if i < 16 then i else if i < 32 then (5 * i + 1) % 16 else if i < 48 then (3 * i + 5) % 16 else 7 * i % 16
  }

  function Shift(i: nat): (s: nat)
    ensures s < 32
  {
    var row := i / 16;
    var (p, q, r, s) :=
      if row == 0 then (7, 12, 17, 22) else if row == 1 then (5, 9, 14, 20)
      else if row == 2 then (4, 11, 16, 23) else (6, 10, 15, 21);
    if i % 4 == 0 then p else if i % 4 == 1 then q else if i % 4 == 2 then r else s
  }

  /** The integer part of 4294967296 times abs(sin(i + 1)). */
  function Sine(i: nat): Word {
    var (p, q, r, s) := SineRow(i / 4);
    if i % 4 == 0 then p else if i % 4 == 1 then q else if i % 4 == 2 then r else s
  }

  function SineRow(row: nat): (Word, Word, Word, Word) {
    match row
    case 0 => (0xd76aa478, 0xe8c7b756, 0x242070db, 0xc1bdceee)
    case 1 => (0xf57c0faf, 0x4787c62a, 0xa8304613, 0xfd469501)
    case 2 => (0x698098d8, 0x8b44f7af, 0xffff5bb1, 0x895cd7be)
    case 3 => (0x6b901122, 0xfd987193, 0xa679438e, 0x49b40821)
    case 4 => (0xf61e2562, 0xc040b340, 0x265e5a51, 0xe9b6c7aa)
    case 5 => (0xd62f105d, 0x02441453, 0xd8a1e681, 0xe7d3fbc8)
    case 6 => (0x21e1cde6, 0xc33707d6, 0xf4d50d87, 0x455a14ed)
    case 7 => (0xa9e3e905, 0xfcefa3f8, 0x676f02d9, 0x8d2a4c8a)
    case 8 => (0xfffa3942, 0x8771f681, 0x6d9d6122, 0xfde5380c)
    case 9 => (0xa4beea44, 0x4bdecfa9, 0xf6bb4b60, 0xbebfbc70)
    case 10 => (0x289b7ec6, 0xeaa127fa, 0xd4ef3085, 0x04881d05)
    case 11 => (0xd9d4d039, 0xe6db99e5, 0x1fa27cf8, 0xc4ac5665)
    case 12 => (0xf4292244, 0x432aff97, 0xab9423a7, 0xfc93a039)
    case 13 => (0x655b59c3, 0x8f0ccc92, 0xffeff47d, 0x85845dd1)
    case 14 => (0x6fa87e4f, 0xfe2ce6e0, 0xa3014314, 0x4e0811a1)
    case _ => (0xf7537e82, 0xbd3af235, 0x2ad7d2bb, 0xeb86d391)
  }

  function Mixed(i: nat, x: Word, y: Word, z: Word): Word {
    if i < 16 then F(x, y, z) else if i < 32 then G(x, y, z) else if i < 48 then H(x, y, z) else I(x, y, z)
  }

  /** Operation i, after which the registers have moved on by one. */
  function Turn(r: Regs, x: Block, i: nat): Regs
    requires i < 64
  {
    var sum := Plus(Plus(Plus(r.a, Mixed(i, r.b, r.c, r.d)), x[Schedule(i)]), Sine(i));
    Regs(r.d, Plus(RotateLeft(sum, Shift(i)), r.b), r.b, r.c)
  }

  /** The first n operations. */
  function Turns(r: Regs, x: Block, n: nat): Regs
    requires n <= 64
    decreases n, |x|
  {
    if n == 0 then r else Turn(Turns(r, x, n - 1), x, n - 1)
  }

  /** t lists the registers before each operation and after the last. */
  ghost predicate Traced(x: Block, t: seq<Regs>) {
    |t| == 65 && forall i {:trigger Turn(t[i], x, i)} :: 0 <= i < 64 ==> t[i + 1] == Turn(t[i], x, i)
  }

  ghost predicate Leads(r: Regs, x: Block, q: Regs) {
    exists t :: Traced(x, t) && t[0] == r && t[64] == q
  }

  /** The loop has a trace ... */
  lemma Trace(r: Regs, x: Block)
    ensures exists t :: Traced(x, t) && t[0] == r && t[64] == Turns(r, x, 64)
  {
    var t := seq(65, i requires 0 <= i < 65 => Turns(r, x, i));
    assert Traced(x, t) && t[0] == r;
  }

  /** ... and no other. */
  lemma {:induction false} TraceIsTurns(r: Regs, x: Block, t: seq<Regs>, n: nat)
    requires Traced(x, t) && t[0] == r && n <= 64
    ensures t[n] == Turns(r, x, n)
  {
    if n > 0 {
      TraceIsTurns(r, x, t, n - 1);
      assert t[n - 1 + 1] == Turn(t[n - 1], x, n - 1);
    }
  }

  /** The registers after all 64 operations. */
  ghost function AllTurns(r: Regs, x: Block): (q: Regs)
    ensures Leads(r, x, q)
  {
    Trace(r, x);
    var t :| Traced(x, t) && t[0] == r;
    t[64]
  }

  /** They are what the loop computes. */
  lemma AllTurnsIsLoop(r: Regs, x: Block)
    ensures AllTurns(r, x) == Turns(r, x, 64)
  {
    assert Leads(r, x, AllTurns(r, x));
    var t :| Traced(x, t) && t[0] == r && t[64] == AllTurns(r, x);
    TraceIsTurns(r, x, t, 64);
  }

  function PlusRegs(r: Regs, q: Regs): Regs {
    Regs(Plus(r.a, q.a), Plus(r.b, q.b), Plus(r.c, q.c), Plus(r.d, q.d))
  }

  ghost function Compress(r: Regs, x: Block): Regs {
    PlusRegs(r, AllTurns(r, x))
  }

  /** What operation i works with: its round, word, shift and constant. */
  function Params(x: Block, i: nat): (nat, Word, nat, Word)
    requires i < 64
  {
    (i / 16, x[Schedule(i)], Shift(i), Sine(i))
  }

  // ---------------------------------------------------------------- words and bytes

  function WordAt(s: seq<Byte>, i: nat): Word
    requires i + 4 <= |s|
  {
    s[i] as nat + 256 * s[i + 1] as nat + 65536 * s[i + 2] as nat + 16777216 * s[i + 3] as nat
  }

  function BlockAt(s: seq<Byte>, i: nat): Block
    requires i + 64 <= |s|
  {
    seq(16, k requires 0 <= k < 16 => WordAt(s, i + 4 * k))
  }

  lemma BlockAtSlice(s: seq<Byte>, i: nat)
    requires i + 64 <= |s|
    ensures BlockAt(s[i..i + 64], 0) == BlockAt(s, i)
  {
  }

  /** A word, low-order byte first. */
  function BytesOf(w: Word): seq<Byte> {
    [w % 256, w / 256 % 256, w / 65536 % 256, w / 16777216 % 256]
  }

  function AllBytesOf(ws: seq<Word>): (s: seq<Byte>)
    ensures |s| == 4 * |ws|
  {
    if ws == [] then [] else AllBytesOf(ws[..|ws| - 1]) + BytesOf(ws[|ws| - 1])
  }

  /** Encode and Decode are inverse on a word. */
  lemma BytesOfRoundTrip(w: Word)
    ensures |BytesOf(w)| == 4 && WordAt(BytesOf(w), 0) == w
  {
    assert w / 256 == 256 * (w / 65536) + w / 256 % 256;
    assert w / 65536 == 256 * (w / 16777216) + w / 65536 % 256;
  }

  // ---------------------------------------------------------------- whole messages

  const START: Regs := Regs(0x67452301, 0xefcdab89, 0x98badcfe, 0x10325476)

  /** The registers after the whole blocks of s. */
  ghost function Digested(r: Regs, s: seq<Byte>): Regs
    decreases |s|
  {
    if |s| < 64 then r else Digested(Compress(r, BlockAt(s, 0)), s[64..])
  }

  /** The rest of s after its whole blocks. */
  function Rest(s: seq<Byte>): (rest: seq<Byte>)
    ensures |rest| == |s| % 64
    decreases |s|
  {
    if |s| < 64 then s else Rest(s[64..])
  }

  /** Whole blocks go ahead on their own. */
  lemma {:induction false} DigestedSplits(r: Regs, s: seq<Byte>, more: seq<Byte>)
    ensures Digested(r, s + more) == Digested(Digested(r, s), Rest(s) + more)
    ensures Rest(s + more) == Rest(Rest(s) + more)
    decreases |s|
  {
    if |s| >= 64 {
      assert (s + more)[64..] == s[64..] + more;
      assert BlockAt(s + more, 0) == BlockAt(s, 0);
      DigestedSplits(Compress(r, BlockAt(s, 0)), s[64..], more);
    }
  }

  /** A block completed by `more`. */
  lemma OneBlock(r: Regs, s: seq<Byte>, more: seq<Byte>)
    requires |s| % 64 + |more| == 64
    ensures Digested(r, s + more) == Compress(Digested(r, s), BlockAt(Rest(s) + more, 0))
    ensures Rest(s + more) == []
  {
    DigestedSplits(r, s, more);
    assert |(Rest(s) + more)[64..]| == 0;
  }

  /** A block taken from further text. */
  lemma OneBlockOf(r: Regs, s: seq<Byte>, text: seq<Byte>, i: nat)
    requires i + 64 <= |text| && Rest(s + text[..i]) == []
    ensures Digested(r, s + text[..i + 64]) == Compress(Digested(r, s + text[..i]), BlockAt(text, i))
    ensures Rest(s + text[..i + 64]) == []
  {
    var s1, more := s + text[..i], text[i..i + 64];
    OneBlock(r, s1, more);
    assert s1 + more == s + text[..i + 64];
    assert Rest(s1) + more == more;
    BlockAtSlice(text, i);
  }

  /** No block completed by `more`. */
  lemma NoBlock(r: Regs, s: seq<Byte>, more: seq<Byte>)
    requires |s| % 64 + |more| < 64
    ensures Digested(r, s + more) == Digested(r, s) && Rest(s + more) == Rest(s) + more
  {
    DigestedSplits(r, s, more);
  }

  /** The bit count kept in two words, and its excess over them: 8 * length == lo + 2^32 * hi + 2^64 * laps. */
  ghost predicate Counts(length: nat, lo: Word, hi: Word, laps: nat) {
    8 * length == lo + WORD * (hi + WORD * laps)
  }

  /** The count's two words are the length in bits modulo 2^64, low-order word first ... */
  lemma CountsLength(length: nat, lo: Word, hi: Word, laps: nat)
    requires Counts(length, lo, hi, laps)
    ensures [lo, hi] == LengthWords(length)
  {
    assert 8 * length % WORD == lo && 8 * length / WORD == hi + WORD * laps;
  }

  /** ... and give the number of buffered bytes. */
  lemma CountsIndex(length: nat, lo: Word, hi: Word, laps: nat)
    requires Counts(length, lo, hi, laps)
    ensures lo / 8 % 64 == length % 64
  {
    assert length - lo / 8 == 64 * (0x80_0000 * (hi + WORD * laps));
  }

  /** Adding 8n to the count with an unsigned carry. */
  lemma CountsAdd(length: nat, lo: Word, hi: Word, laps: nat, n: Word, carry: nat)
    requires Counts(length, lo, hi, laps)
    requires carry == if Plus(lo, 8 * n % WORD) < 8 * n % WORD then 1 else 0
    ensures Counts(length + n, Plus(lo, 8 * n % WORD), Plus(Plus(hi, carry), n / 0x2000_0000),
                   laps + if hi + carry + n / 0x2000_0000 < WORD then 0 else 1)
  {
    assert 8 * n == 8 * n % WORD + WORD * (n / 0x2000_0000);
    assert Plus(lo, 8 * n % WORD) + WORD * carry == lo + 8 * n % WORD;
  }

  /** The block loop's guard i + 63 < n in unsigned arithmetic. */
  predicate MoreBlocks(i: Word, n: Word) {
    Plus(i, 63) < n
  }

  /** The end of the last whole block of n bytes added to `index` buffered ones. */
  function LastBlockEnd(index: nat, n: Word): Word
    requires index < 64 && 64 - index <= n
  {
    64 * ((index + n) / 64) - index
  }

  /** The guard ends the loop at the last whole block exactly if that block does not end in the top
      63 bytes of the 32-bit range. */
  predicate StopsInTime(index: nat, n: Word)
    requires index < 64
  {
    64 - index <= n ==> LastBlockEnd(index, n) + 63 < WORD
  }

  /** Between block ends the guard holds exactly if another whole block follows. */
  lemma GuardIsRight(index: nat, n: Word, i: Word)
    requires index < 64 && 64 - index <= n && StopsInTime(index, n)
    requires (index + i) % 64 == 0 && i <= LastBlockEnd(index, n)
    ensures MoreBlocks(i, n) <==> i < LastBlockEnd(index, n)
    ensures i < LastBlockEnd(index, n) ==> i + 64 <= LastBlockEnd(index, n) && (index + i + 64) % 64 == 0
  {
  }

  lemma LoopStopsExactlyWhen(index: nat, n: Word)
    requires index < 64 && 64 - index <= n
    ensures !MoreBlocks(LastBlockEnd(index, n), n) <==> StopsInTime(index, n)
  {
  }

  /** With one byte buffered and a piece of 2^32 - 1 bytes, the guard holds behind the last byte. */
  lemma LoopRunsOn()
    ensures var n := WORD - 1; LastBlockEnd(1, n) == n && MoreBlocks(n, n)
  {
  }

  // ---------------------------------------------------------------- the whole buffer

  /** The first block that a piece completes. */
  function FirstBlock(b: seq<Byte>, index: nat, piece: seq<Byte>): (block: seq<Byte>)
    requires index < 64 == |b| && 64 - index <= |piece|
    ensures |block| == 64
  {
    b[..index] + piece[..64 - index]
  }

  /** What follows the piece's last block, over the first block it completed. */
  function Refilled(b: seq<Byte>, index: nat, piece: seq<Byte>, end: nat): (after: seq<Byte>)
    requires index < 64 == |b| && 64 - index <= |piece| && end <= |piece| < end + 64
    ensures |after| == 64
  {
    piece[end..] + FirstBlock(b, index, piece)[|piece| - end..]
  }

  /** All 64 bytes of the buffer after a piece, `index` of them in use before: behind the live bytes
      stands what was there, or what is left of the one block that was put together there. */
  function BufferAfter(b: seq<Byte>, index: nat, piece: seq<Byte>): (after: seq<Byte>)
    requires index < 64 == |b| && |piece| < WORD
    ensures |after| == 64
  {
    if |piece| < 64 - index then b[..index] + piece + b[index + |piece|..]
    else Refilled(b, index, piece, LastBlockEnd(index, |piece|))
  }

  lemma TailsDecide(rest: seq<Byte>, s: seq<Byte>, t: seq<Byte>)
    ensures rest + s == rest + t <==> s == t
  {
    assert (rest + s)[|rest|..] == s && (rest + t)[|rest|..] == t;
  }

  lemma FullPiece(b: seq<Byte>, index: nat, piece: seq<Byte>, end: nat)
    requires index < 64 == |b| && 64 - index <= |piece| < WORD && end == LastBlockEnd(index, |piece|)
    ensures end <= |piece| < end + 64 && BufferAfter(b, index, piece) == Refilled(b, index, piece, end)
  {
  }

  /** The rest of a piece copied to the head of the block that was put together. */
  lemma KeptIsRefilled(b: seq<Byte>, index: nat, piece: seq<Byte>, end: nat)
    requires index < 64 == |b| && 64 - index <= |piece| && end <= |piece| < end + 64
    ensures var block := FirstBlock(b, index, piece);
      block[..0] + piece[end..] + block[0 + |piece| - end..] == Refilled(b, index, piece, end)
  {
  }

  lemma ShortPiece(b: seq<Byte>, index: nat, piece: seq<Byte>)
    requires index + |piece| < 64 == |b|
    ensures BufferAfter(b, index, piece) == b[..index] + piece + b[index + |piece|..]
  {
  }

  lemma SliceSum(u: seq<Byte>, v: seq<Byte>, k: nat)
    requires k <= |u| + |v|
    ensures (u + v)[..k] == if k <= |u| then u[..k] else u + v[..k - |u|]
    ensures (u + v)[k..] == if k <= |u| then u[k..] + v else v[k - |u|..]
  {
  }

  /** The last block end of two pieces. */
  lemma EndsAdd(index: nat, m: nat, n: nat)
    requires index < 64 && m + n < WORD && 64 - index <= m + n
    ensures var next := (index + m) % 64;
      && (64 - next <= n ==>
          LastBlockEnd(index, m + n) == m + LastBlockEnd(next, n) && n - LastBlockEnd(next, n) == (index + m + n) % 64)
      && (64 - next > n && 64 - index <= m ==> LastBlockEnd(index, m + n) == LastBlockEnd(index, m) == m - next)
  {
  }

  /** Text written behind `rest`, over the head of `tail`. */
  lemma WrittenBehind(rest: seq<Byte>, tail: seq<Byte>, v: seq<Byte>)
    requires |v| <= |tail|
    ensures var s := rest + tail; s[..|rest|] + v + s[|rest| + |v|..] == rest + v + tail[|v|..]
  {
    SliceSum(rest, tail, |rest|);
    SliceSum(rest, tail, |rest| + |v|);
  }

  lemma DropDrop(s: seq<Byte>, k: nat, n: nat)
    requires k + n <= |s|
    ensures s[k..][n..] == s[k + n..]
  {
  }

  lemma NeitherComplete(b: seq<Byte>, index: nat, u: seq<Byte>, v: seq<Byte>)
    requires |b| == 64 && index + |u| + |v| < 64
    ensures BufferAfter(b, index, u + v) == BufferAfter(BufferAfter(b, index, u), index + |u|, v)
  {
    WrittenBehind(b[..index] + u, b[index + |u|..], v);
    DropDrop(b, index + |u|, |v|);
    Associates(b[..index], u, v);
  }

  lemma ThenComplete(b: seq<Byte>, b1: seq<Byte>, index: nat, u: seq<Byte>, v: seq<Byte>, end: nat)
    requires |b1| == 64 == |b| && index + |u| < 64
    requires b1[..index + |u|] == b[..index] + u && 64 - (index + |u|) <= |v| && end <= |v| < end + 64
    ensures Refilled(b, index, u + v, |u| + end) == Refilled(b1, index + |u|, v, end)
  {
    SliceSum(u, v, 64 - index);
    SliceSum(u, v, |u| + end);
    assert FirstBlock(b1, index + |u|, v) == FirstBlock(b, index, u + v);
  }

  lemma FirstIncomplete(b: seq<Byte>, index: nat, u: seq<Byte>, v: seq<Byte>)
    requires index < 64 == |b| && |u| + |v| < WORD && |u| < 64 - index
    ensures BufferAfter(b, index, u + v) == BufferAfter(BufferAfter(b, index, u), index + |u|, v)
  {
    if 64 - (index + |u|) <= |v| {
      EndsAdd(index, |u|, |v|);
      SliceSum(b[..index] + u, b[index + |u|..], index + |u|);
      ThenComplete(b, BufferAfter(b, index, u), index, u, v, LastBlockEnd(index + |u|, |v|));
    } else {
      NeitherComplete(b, index, u, v);
    }
  }

  lemma AppendRest(b: seq<Byte>, index: nat, u: seq<Byte>, v: seq<Byte>, end: nat)
    requires index < 64 == |b| && 64 - index <= |u| && end <= |u| && |u| + |v| < end + 64
    ensures var b1, next := Refilled(b, index, u, end), |u| - end;
      b1[..next] + v + b1[next + |v|..] == Refilled(b, index, u + v, end)
  {
    WrittenBehind(u[end..], FirstBlock(b, index, u)[|u| - end..], v);
    DropDrop(FirstBlock(b, index, u), |u| - end, |v|);
    SliceSum(u, v, 64 - index);
    SliceSum(u, v, end);
  }

  lemma SecondIncomplete(b: seq<Byte>, index: nat, u: seq<Byte>, v: seq<Byte>)
    requires index < 64 == |b| && |u| + |v| < WORD && 64 - index <= |u| && (index + |u|) % 64 + |v| < 64
    ensures BufferAfter(b, index, u + v) == BufferAfter(BufferAfter(b, index, u), (index + |u|) % 64, v)
  {
    var end, next := LastBlockEnd(index, |u|), (index + |u|) % 64;
    EndsAdd(index, |u|, |v|);
    FullPiece(b, index, u, end);
    FullPiece(b, index, u + v, end);
    ShortPiece(Refilled(b, index, u, end), next, v);
    AppendRest(b, index, u, v, end);
  }

  lemma BothRefill(b: seq<Byte>, index: nat, u: seq<Byte>, v: seq<Byte>, end: nat)
    requires index < 64 == |b| && 64 - index <= |u| && end <= |v| < end + 64
    ensures Refilled(b, index, u + v, |u| + end) == v[end..] + FirstBlock(b, index, u)[|v| - end..]
  {
    SliceSum(u, v, 64 - index);
    SliceSum(u, v, |u| + end);
  }

  lemma BothComplete(b: seq<Byte>, index: nat, u: seq<Byte>, v: seq<Byte>)
    requires index < 64 == |b| && |u| + |v| < WORD
    requires 64 - index <= |u| && 64 - (index + |u|) % 64 <= |v|
    ensures var next, live := (index + |u|) % 64, (index + |u| + |v|) % 64;
      var end := LastBlockEnd(next, |v|);
      && |v| - end == live
      && BufferAfter(b, index, u + v) == v[end..] + FirstBlock(b, index, u)[live..]
  {
    var end := LastBlockEnd((index + |u|) % 64, |v|);
    EndsAdd(index, |u|, |v|);
    FullPiece(b, index, u + v, |u| + end);
    BothRefill(b, index, u, v, end);
  }

  /** Whether one call or two, the buffer is the same, stale bytes included, exactly unless both pieces
      complete a block and the blocks first completed by either differ behind the live bytes. */
  lemma SameBufferExactlyWhen(b: seq<Byte>, index: nat, u: seq<Byte>, v: seq<Byte>)
    requires index < 64 == |b| && |u| + |v| < WORD
    ensures var next, live, b1 := (index + |u|) % 64, (index + |u| + |v|) % 64, BufferAfter(b, index, u);
      BufferAfter(b, index, u + v) == BufferAfter(b1, next, v) <==>
      (64 - index <= |u| && 64 - next <= |v| ==> FirstBlock(b, index, u)[live..] == FirstBlock(b1, next, v)[live..])
  {
    var next, live, b1 := (index + |u|) % 64, (index + |u| + |v|) % 64, BufferAfter(b, index, u);
    if |u| < 64 - index {
      FirstIncomplete(b, index, u, v);
    } else if |v| < 64 - next {
      SecondIncomplete(b, index, u, v);
    } else {
      BothComplete(b, index, u, v);
      FullPiece(b1, next, v, LastBlockEnd(next, |v|));
      TailsDecide(v[LastBlockEnd(next, |v|)..], FirstBlock(b, index, u)[live..], FirstBlock(b1, next, v)[live..]);
    }
  }

  /** 64 zero bytes and 64 others, given in one call or in two. */
  lemma StaleBytesDiffer(b: seq<Byte>)
    requires |b| == 64
    ensures var u, v := Zeros(64), [1] + Zeros(63);
      BufferAfter(b, 0, u + v) == u && BufferAfter(BufferAfter(b, 0, u), 0, v) == v && u != v
  {
    var u, v := Zeros(64), [1] + Zeros(63);
    assert u[0] == 0 && v[0] == 1;
    BothComplete(b, 0, u, v);
  }

  /** Step 1: a 1 bit, then 0 bits, up to 56 bytes modulo 64. */
  function Padding(length: nat): (p: seq<Byte>)
    ensures (length + |p|) % 64 == 56 && 1 <= |p| <= 64
  {
    var index := length % 64;
    [0x80] + Zeros(if index < 56 then 55 - index else 119 - index)
  }

  /** Step 2: the length in bits, modulo 2^64, low-order word first. */
  function LengthWords(length: nat): seq<Word> {
    [8 * length % WORD, 8 * length / WORD % WORD]
  }

  function Padded(s: seq<Byte>): seq<Byte> {
    s + Padding(|s|) + AllBytesOf(LengthWords(|s|))
  }

  /** Steps 3 to 5. */
  ghost function Md5(s: seq<Byte>): seq<Byte> {
    var r := Digested(START, Padded(s));
    AllBytesOf([r.a, r.b, r.c, r.d])
  }

  /** The padded message is whole blocks, so every byte of it is digested. */
  lemma PaddedIsWhole(s: seq<Byte>)
    ensures |Padded(s)| % 64 == 0 && Rest(Padded(s)) == []
  {
  }
}
