/** The optimised base64 codec over byte buffers, on a little-endian host: encoding through 4-byte
    loads, decoding through 4-byte stores.  Shifts and masks of unsigned words are written as
    arithmetic. */
module Base64 {
  import opened Bytes
  import opened Base64Model
  import opened Sequences

  const WORD: nat := 0x1_0000_0000

  // ---------------------------------------------------------------- byte order

  /** AV_BSWAP16C on the low half of x. */
  function BSwap16(x: nat): nat {
    x % 256 * 256 + x / 256 % 256
  }

  /** AV_BSWAP32C. */
  function BSwap32(x: nat): nat
    requires x < WORD
  {
    BSwap16(x) * 65536 + BSwap16(x / 65536)
  }

  function LittleEndian(a: Byte, b: Byte, c: Byte, d: Byte): nat {
    a as nat + 256 * b as nat + 65536 * c as nat + 16777216 * d as nat
  }

  lemma Swap16Of(lo: Byte, hi: Byte, rest: nat)
    ensures BSwap16(lo as nat + 256 * hi as nat + 65536 * rest) == lo as nat * 256 + hi as nat
  {
    HighByte(lo, hi as nat + 256 * rest);
  }

  lemma HighByte(lo: Byte, rest: nat)
    ensures (lo as nat + 256 * rest) % 256 == lo && (lo as nat + 256 * rest) / 256 == rest
  {
  }

  lemma HighHalf(lo: nat, rest: nat)
    requires lo < 65536
    ensures (lo + 65536 * rest) / 65536 == rest
  {
  }

  lemma HighTop(lo: nat, top: Byte)
    requires lo < 16777216
    ensures (lo + 16777216 * top as nat) / 16777216 == top
  {
  }

  /** AV_RB32 reads big-endian. */
  lemma LoadIsBigEndian(a: Byte, b: Byte, c: Byte, d: Byte)
    ensures BSwap32(LittleEndian(a, b, c, d)) == LittleEndian(d, c, b, a)
  {
    Swap16Of(a, b, c as nat + 256 * d as nat);
    Swap16Of(c, d, 0);
    HighHalf(a as nat + 256 * b as nat, c as nat + 256 * d as nat);
  }

  /** The bytes of a word in memory. */
  function Stored(x: nat): seq<Byte>
    requires x < WORD
  {
    [x % 256, x / 256 % 256, x / 65536 % 256, x / 16777216]
  }

  lemma StoredBytes(a: Byte, b: Byte, c: Byte, d: Byte)
    ensures Stored(LittleEndian(a, b, c, d)) == [a, b, c, d]
  {
    var high := c as nat + 256 * d as nat;
    HighByte(a, b as nat + 256 * high);
    HighByte(b, high);
    HighByte(c, d);
    HighHalf(a as nat + 256 * b as nat, high);
    HighTop(a as nat + 256 * b as nat + 65536 * c as nat, d);
  }

  // ---------------------------------------------------------------- decoding

  /** A NUL ends the text at or after `at`. */
  ghost predicate Terminated(t: seq<Byte>, at: nat) {
    exists k :: at <= k < |t| && t[k] == 0
  }

  lemma SextetsFrom(t: seq<Byte>, at: nat)
    requires at < |t|
    ensures Sextets(t[at..]) == if IsLetter(t[at]) then [Map2(t[at]) as Sextet] + Sextets(t[at + 1..]) else []
  {
    assert t[at..][1..] == t[at + 1..];
  }

  /** The value of a group of sextets, first one highest. */
  function Value(sx: seq<nat>): nat {
    if sx == [] then 0 else Value(sx[..|sx| - 1]) * 64 + sx[|sx| - 1]
  }

  /** The i characters from `at` are letters of value v. */
  ghost predicate Reads(t: seq<Byte>, at: nat, i: nat, v: nat)
    requires at + i <= |t|
  {
    var sx := Sextets(t[at..]);
    i <= |sx| && sx[i..] == Sextets(t[at + i..]) && (i > 0 ==> v == Value(sx[..i]))
  }

  lemma ReadsMore(t: seq<Byte>, at: nat, i: nat, v: nat)
    requires at + i < |t| && Reads(t, at, i, v) && IsLetter(t[at + i])
    ensures Reads(t, at, i + 1, if i == 0 then Map2(t[at + i]) else v * 64 + Map2(t[at + i]))
  {
    var sx := Sextets(t[at..]);
    SextetsFrom(t, at + i);
    assert sx[i] == sx[i..][0] && sx[i + 1..] == sx[i..][1..];
    assert sx[..i + 1][..i] == sx[..i];
  }

  /** The group at pos has only r letters, of value v. */
  ghost predicate StoppedAt(t: seq<Byte>, pos: nat, r: nat, v: nat) {
    && r < 4 && pos <= |t|
    && var sx := Sextets(t[pos..]);
    |sx| == r && (r > 0 ==> v == Value(sx))
  }

  /** BASE64_DEC_STEP(i). */
  method Step(input: array<Byte>, at: nat, i: nat, v: nat) returns (ok: bool, w: nat)
    requires i < 4 && Terminated(input[..], at + i) && Reads(input[..], at, i, v)
    ensures !ok ==> StoppedAt(input[..], at, i, w)
    ensures ok ==> Terminated(input[..], at + i + 1) && Reads(input[..], at, i + 1, w)
  {
    ghost var t := input[..];
    var bits := Map2(input[at + i]);
    if bits >= 0x80 {
      SextetsFrom(t, at + i);
      assert Sextets(t[at..])[..i] == Sextets(t[at..]);
      return false, v;
    }
    ReadsMore(t, at, i, v);
    return true, if i == 0 then bits else v * 64 + bits;
  }

  /** BASE64_DEC_STEP(i) and BASE64_DEC_STEP(i + 1). */
  method TwoSteps(input: array<Byte>, at: nat, i: nat, v: nat) returns (r: nat, w: nat)
    requires i <= 2 && Terminated(input[..], at + i) && Reads(input[..], at, i, v)
    ensures i <= r <= i + 2
    ensures r < i + 2 ==> StoppedAt(input[..], at, r, w)
    ensures r == i + 2 ==> Terminated(input[..], at + r) && Reads(input[..], at, r, w)
  {
    var ok;
    ok, w := Step(input, at, i, v);
    if !ok { return i, w; }
    ok, w := Step(input, at, i + 1, w);
    return if ok then i + 2 else i + 1, w;
  }

  /** BASE64_DEC_STEP(0) to BASE64_DEC_STEP(3): how many succeed, and the value read. */
  method Steps(input: array<Byte>, at: nat) returns (r: nat, v: nat)
    requires Terminated(input[..], at)
    ensures r <= 4
    ensures r < 4 ==> StoppedAt(input[..], at, r, v)
    ensures r == 4 ==> Terminated(input[..], at + 4) && Reads(input[..], at, 4, v)
  {
    r, v := TwoSteps(input, at, 0, 0);
    if r == 2 {
      r, v := TwoSteps(input, at, 2, v);
    }
  }

  lemma ValueOf(a: nat, b: nat, c: nat, d: nat)
    ensures Value([a, b]) == a * 64 + b
    ensures Value([a, b, c]) == (a * 64 + b) * 64 + c
    ensures Value([a, b, c, d]) == ((a * 64 + b) * 64 + c) * 64 + d
  {
    assert [a][..0] == [] && [a, b][..1] == [a];
    assert Value([a]) == a;
    assert [a, b, c][..2] == [a, b] && [a, b, c, d][..3] == [a, b, c];
  }

  /** The bytes of a group, as the decoder cuts them out of its value. */
  lemma TailByte(a: nat, b: nat)
    requires a < 64 && b < 64
    ensures (a * 64 + b) / 16 == High(a, b)
  {
    assert a * 64 + b == 16 * High(a, b) + b % 16;
  }

  lemma TailBytes(a: nat, b: nat, c: nat)
    requires a < 64 && b < 64 && c < 64
    ensures var v := (a * 64 + b) * 64 + c;
      v / 1024 == High(a, b) && v * 4 / 16 % 256 == Middle(b, c)
  {
    var h, m := High(a, b), Middle(b, c);
    var v := (a * 64 + b) * 64 + c;
    assert v == 1024 * h + 4 * m + c % 4 by {
      assert b == b / 16 * 16 + b % 16 && c == c / 4 * 4 + c % 4;
    }
    Cut(v, h, m, c % 4);
  }

  lemma Cut(v: nat, h: nat, m: nat, f: nat)
    requires m < 256 && f < 4 && v == 1024 * h + 4 * m + f
    ensures v / 1024 == h && v * 4 / 16 % 256 == m
  {
    assert v * 4 / 16 == 256 * h + m;
  }

  lemma GroupBytes(a: nat, b: nat, c: nat, d: nat)
    requires a < 64 && b < 64 && c < 64 && d < 64
    ensures ((a * 64 + b) * 64 + c) * 64 + d == LittleEndian(Low(c, d), Middle(b, c), High(a, b), 0)
  {
  }

  /** *dst++ = b. */
  method Put(out: array<Byte>, at: nat, b: Byte)
    requires at < out.Length
    modifies out
    ensures out[..at + 1] == old(out[..at]) + [b] && out[at + 1..] == old(out[at + 1..])
  {
    out[at] := b;
  }

  /** out3 and out2: the whole bytes of an incomplete group. */
  method Tail(out: array<Byte>, at: nat, ghost sx: seq<Sextet>, r: nat, v: nat) returns (n: nat)
    requires r < 4 && |sx| == r && (r > 0 ==> v == Value(sx)) && at + |Decoded(sx)| <= out.Length
    modifies out
    ensures n == at + |Decoded(sx)|
    ensures out[..n] == old(out[..at]) + Decoded(sx) && out[n..] == old(out[n..])
  {
    if r == 3 {
      TailOfThree(sx, v);
      Put(out, at, v / 1024);
      Put(out, at + 1, v * 4 / 16 % 256);
      n := at + 2;
    } else if r == 2 {
      TailOfTwo(sx, v);
      Put(out, at, v / 16);
      n := at + 1;
    } else {
      n := at;
    }
  }

  lemma TailOfThree(sx: seq<Sextet>, v: nat)
    requires |sx| == 3 && v == Value(sx)
    ensures v / 1024 < 256 && Decoded(sx) == [v / 1024, v * 4 / 16 % 256]
  {
    assert sx == [sx[0], sx[1], sx[2]];
    ValueOf(sx[0], sx[1], sx[2], 0);
    TailBytes(sx[0], sx[1], sx[2]);
  }

  lemma TailOfTwo(sx: seq<Sextet>, v: nat)
    requires |sx| == 2 && v == Value(sx)
    ensures v / 16 < 256 && Decoded(sx) == [v / 16]
  {
    assert sx == [sx[0], sx[1]];
    ValueOf(sx[0], sx[1], 0, 0);
    TailByte(sx[0], sx[1]);
  }

  lemma ThreeOfGroup(a: Sextet, b: Sextet, c: Sextet, d: Sextet, v: nat)
    requires v == ((a * 64 + b) * 64 + c) * 64 + d
    ensures v < 0x100_0000
    ensures [v / 65536, v / 256 % 256, v % 256] == [High(a, b), Middle(b, c), Low(c, d)]
  {
    GroupBytes(a, b, c, d);
    StoredBytes(Low(c, d), Middle(b, c), High(a, b), 0);
    assert Stored(v)[0] == Low(c, d) && Stored(v)[1] == Middle(b, c) && Stored(v)[2] == High(a, b);
    assert v / 65536 % 256 == v / 65536;
  }

  /** A whole group gives its value's three bytes. */
  lemma WholeGroup(t: seq<Byte>, pos: nat, v: nat)
    requires pos + 4 <= |t| && Reads(t, pos, 4, v)
    ensures v < 0x100_0000
    ensures Decoded(Sextets(t[pos..])) == [v / 65536, v / 256 % 256, v % 256] + Decoded(Sextets(t[pos + 4..]))
    ensures |Sextets(t[pos..])| == 4 + |Sextets(t[pos + 4..])|
  {
    var sx := Sextets(t[pos..]);
    var a, b, c, d := sx[0], sx[1], sx[2], sx[3];
    assert sx[..4] == [a, b, c, d];
    ValueOf(a, b, c, d);
    ThreeOfGroup(a, b, c, d, v);
  }

  /** The four bytes stored for a group of value v: v << 8 from the top. */
  lemma StoreIsBigEndian(v: nat)
    requires v < 0x100_0000
    ensures BSwap32(v * 256) < WORD
    ensures Stored(BSwap32(v * 256)) == [v / 65536, v / 256 % 256, v % 256, 0]
  {
    var a, b, c := v / 65536, v / 256 % 256, v % 256;
    assert v == 65536 * a + 256 * b + c by {
      assert v / 256 == 256 * (v / 65536) + v / 256 % 256;
    }
    assert v * 256 == LittleEndian(0, c, b, a);
    LoadIsBigEndian(0, c, b, a);
    StoredBytes(a, b, c, 0);
  }

  /** AV_WN32(dst, av_be2ne32(v << 8)). */
  method StoreGroup(out: array<Byte>, at: nat, v: nat)
    requires at + 4 <= out.Length && v < 0x100_0000
    modifies out
    ensures out[..at + 3] == old(out[..at]) + [v / 65536, v / 256 % 256, v % 256]
    ensures out[at + 4..] == old(out[at + 4..])
  {
    StoreIsBigEndian(v);
    ghost var bytes := Stored(BSwap32(v * 256));
    Store(out, at, BSwap32(v * 256));
    assert out[..at + 3] == old(out[..at]) + bytes[..3];
  }

  method Store(out: array<Byte>, at: nat, w: nat)
    requires at + 4 <= out.Length && w < WORD
    modifies out
    ensures out[..at] == old(out[..at]) && out[at..at + 4] == Stored(w)
    ensures out[at + 4..] == old(out[at + 4..])
  {
    out[at], out[at + 1] := w % 256, w / 256 % 256;
    out[at + 2], out[at + 3] := w / 65536 % 256, w / 16777216;
  }

  /** After j whole groups: 4j characters read, 3j bytes written, the rest still to decode. */
  ghost predicate Progress(t: seq<Byte>, written: seq<Byte>, pos: nat) {
    && pos <= |t| && 4 * |written| == 3 * pos && pos % 4 == 0
    && Decoded(Sextets(t)) == written + Decoded(Sextets(t[pos..]))
    && |Sextets(t)| == pos + |Sextets(t[pos..])|
  }

  lemma ProgressStart(t: seq<Byte>)
    ensures Progress(t, [], 0)
  {
    assert t[0..] == t;
  }

  lemma ProgressMore(t: seq<Byte>, written: seq<Byte>, pos: nat, v: nat)
    requires Progress(t, written, pos) && pos + 4 <= |t| && Reads(t, pos, 4, v)
    ensures v < 0x100_0000
    ensures Progress(t, written + [v / 65536, v / 256 % 256, v % 256], pos + 4)
  {
    WholeGroup(t, pos, v);
    var three := [v / 65536, v / 256 % 256, v % 256];
    var rest := Decoded(Sextets(t[pos + 4..]));
    Associates(written, three, rest);
  }

  /** A turn of the first loop. */
  method TakeGroup(out: array<Byte>, input: array<Byte>, outSize: nat, dst: nat, pos: nat) returns (r: nat, v: nat)
    requires out != input && dst + 3 < outSize <= out.Length
    requires Progress(input[..], out[..dst], pos) && Terminated(input[..], pos)
    modifies out
    ensures r <= 4
    ensures r < 4 ==> out[..] == old(out[..]) && StoppedAt(input[..], pos, r, v)
    ensures r == 4 ==> Progress(input[..], out[..dst + 3], pos + 4) && Terminated(input[..], pos + 4)
    ensures out[outSize..] == old(out[outSize..])
  {
    r, v := Steps(input, pos);
    if r == 4 {
      ProgressMore(input[..], out[..dst], pos, v);
      StoreGroup(out, dst, v);
      assert out[outSize..] == out[dst + 4..][outSize - dst - 4..];
    }
  }

  /** The first loop: groups while more than three bytes of room are left.  It ends early, with
      r < 4, at a group that is not whole. */
  method WholeGroups(out: array<Byte>, input: array<Byte>, outSize: nat) returns (dst: nat, pos: nat, r: nat, v: nat)
    requires out != input && Terminated(input[..], 0) && outSize <= out.Length
    modifies out
    ensures dst <= outSize && Progress(input[..], out[..dst], pos)
    ensures out[outSize..] == old(out[outSize..])
    ensures r < 4 ==> StoppedAt(input[..], pos, r, v) && outSize - dst > 3
    ensures r == 4 ==> Terminated(input[..], pos) && outSize - dst <= 3 && (outSize > 0 ==> dst < outSize)
    ensures r <= 4
  {
    dst, pos, r, v := 0, 0, 4, 0;
    ghost var t := input[..];
    ProgressStart(t);
    while outSize - dst > 3
      invariant dst <= outSize && (outSize > 0 ==> dst < outSize)
      invariant Progress(t, out[..dst], pos) && Terminated(t, pos)
      invariant out[outSize..] == old(out[outSize..])
      invariant r == 4
    {
      r, v := TakeGroup(out, input, outSize, dst, pos);
      if r < 4 {
        assert out[..dst] == out[..][..dst];
        return;
      }
      dst, pos := dst + 3, pos + 4;
    }
  }

  /** The three bytes of a value, as far as there is room. */
  method PutSome(out: array<Byte>, at: nat, room: nat, v: nat)
    requires 1 <= room <= 3 && at + room <= out.Length && v < 0x100_0000
    modifies out
    ensures out[..at + room] == old(out[..at]) + [v / 65536, v / 256 % 256, v % 256][..room]
    ensures out[at + room..] == old(out[at + room..])
  {
    var dst, end := at, at + room;
    out[dst] := v / 65536;
    dst := dst + 1;
    if end != dst {
      out[dst] := v / 256 % 256;
      dst := dst + 1;
    }
    if end != dst {
      out[dst] := v % 256;
    }
  }

  /** The group for the last one, two or three bytes of room, written as far as it fits. */
  method LastGroup(out: array<Byte>, input: array<Byte>, outSize: nat, dst: nat, pos: nat) returns (r: nat, v: nat)
    requires out != input && dst < outSize <= dst + 3 && outSize <= out.Length
    requires Progress(input[..], out[..dst], pos) && Terminated(input[..], pos)
    modifies out
    ensures r <= 4
    ensures r < 4 ==> out[..] == old(out[..]) && StoppedAt(input[..], pos, r, v)
    ensures r == 4 ==> Terminated(input[..], pos + 4) && pos + 4 <= |Sextets(input[..])|
    ensures r == 4 ==> out[..outSize] <= Decoded(Sextets(input[..])) && out[outSize..] == old(out[outSize..])
  {
    r, v := Steps(input, pos);
    if r == 4 {
      ghost var w := out[..dst];
      ProgressMore(input[..], w, pos, v);
      PutSome(out, dst, outSize - dst, v);
      ghost var three := [v / 65536, v / 256 % 256, v % 256];
      PrefixOfPrefix(w, three, outSize - dst, Decoded(Sextets(input[..])));
    }
  }

  lemma PrefixOfPrefix(w: seq<Byte>, three: seq<nat>, k: nat, all: seq<Byte>)
    requires k <= |three| && w + three <= all
    ensures w + three[..k] <= all
  {
  }

  /** Bytes of g whole groups and r more letters. */
  lemma GroupedBytes(g: nat, r: nat)
    requires r < 4
    ensures 3 * (4 * g + r) / 4 == 3 * g + 3 * r / 4 && 3 * r / 4 <= 2
    ensures r < 3 ==> 3 * r / 4 <= 1
  {
  }

  lemma StoppedGroups(outSize: nat, g: nat, r: nat)
    requires r < 4 && 3 * g < outSize
    ensures 3 * g + 3 * r / 4 == Min(3 * (4 * g + r) / 4, outSize + Overrun(4 * g + r, outSize))
  {
    GroupedBytes(g, r);
    if outSize == 3 * g + 1 { assert outSize / 3 == g && outSize % 3 == 1; }
  }

  /** The result of an incomplete last group. */
  lemma StoppedSize(outSize: nat, dst: nat, pos: nat, r: nat)
    requires 4 * dst == 3 * pos && pos % 4 == 0 && r < 4 && dst < outSize
    ensures dst + 3 * r / 4 == Min(3 * (pos + r) / 4, outSize + Overrun(pos + r, outSize))
  {
    var g := pos / 4;
    assert pos == 4 * g && dst == 3 * g;
    StoppedGroups(outSize, g, r);
  }

  /** The result when the buffer was filled. */
  lemma FullSize(outSize: nat, dst: nat, pos: nat, sextets: nat)
    requires 4 * dst == 3 * pos && pos % 4 == 0 && pos + 4 <= sextets && dst < outSize <= dst + 3
    ensures Overrun(sextets, outSize) == 0 && Min(3 * sextets / 4, outSize) == outSize
  {
    assert pos == pos / 4 * 4 && dst == pos / 4 * 3;
  }

  /** The end of the bytes a decode may write. */
  ghost function Limit(t: seq<Byte>, outSize: nat): nat {
    outSize + Overrun(|Sextets(t)|, outSize)
  }

  /** `written` is the whole result, or as much of it as the limit allows. */
  ghost predicate IsResult(t: seq<Byte>, written: seq<Byte>, outSize: nat) {
    var all := Decoded(Sextets(t));
    written == all[..Min(|all|, Limit(t, outSize))]
  }

  /** Any three letters, for a buffer of one byte: two bytes are written. */
  lemma OverrunHappens(t: seq<Byte>)
    requires |t| == 4 && IsLetter(t[0]) && IsLetter(t[1]) && IsLetter(t[2]) && t[3] == 0
    ensures Limit(t, 1) == 2 && IsResult(t, Decoded(Sextets(t)), 1) && |Decoded(Sextets(t))| == 2
  {
    assert t[1..][1..] == t[2..] && t[2..][1..] == t[3..];
    assert |Sextets(t[3..])| == 0;
    assert |Sextets(t[2..])| == 1;
    assert |Sextets(t[1..])| == 2;
  }

  /** The jump to out3, out2, out1 or out0. */
  method Leave(out: array<Byte>, input: array<Byte>, outSize: nat, dst: nat, pos: nat, r: nat, v: nat) returns (n: nat)
    requires out != input && dst < outSize && Limit(input[..], outSize) <= out.Length
    requires Progress(input[..], out[..dst], pos) && StoppedAt(input[..], pos, r, v)
    modifies out
    ensures n <= Limit(input[..], outSize) && IsResult(input[..], out[..n], outSize)
    ensures out[n..] == old(out[n..])
  {
    ghost var sx := Sextets(input[pos..]);
    StoppedSize(outSize, dst, pos, r);
    n := Tail(out, dst, sx, r, v);
  }

  /** base64_decode, for every NUL-terminated text and every size of buffer: the bytes of the leading
      letters, cut at the size, or one byte longer in the case of Overrun. */
  method Decode(out: array<Byte>, input: array<Byte>, outSize: nat) returns (n: nat)
    requires out != input && Terminated(input[..], 0) && Limit(input[..], outSize) <= out.Length
    modifies out
    ensures n <= Limit(input[..], outSize) && IsResult(input[..], out[..n], outSize)
    ensures out[Limit(input[..], outSize)..] == old(out[Limit(input[..], outSize)..])
  {
    ghost var was := out[..];
    var dst, pos, r, v := WholeGroups(out, input, outSize);
    assert out[outSize..] == was[outSize..];
    if r == 4 && outSize != dst {
      r, v := LastGroup(out, input, outSize, dst, pos);
      if r == 4 {
        FullSize(outSize, dst, pos, |Sextets(input[..])|);
        var end := SkipLetters(input, pos + 4);
        return outSize;
      }
      assert out[..dst] == out[..][..dst];
    }
    if r < 4 {
      ghost var before := out[..];
      n := Leave(out, input, outSize, dst, pos, r, v);
      TailsAgree(was, before, out[..], outSize, n, Limit(input[..], outSize));
      return;
    }
    var end := SkipLetters(input, pos);
    return 0;
  }

  lemma TailsAgree(a: seq<Byte>, b: seq<Byte>, c: seq<Byte>, from: nat, n: nat, limit: nat)
    requires |a| == |b| == |c| && from <= limit <= |a| && n <= limit
    requires a[from..] == b[from..] && b[n..] == c[n..]
    ensures a[limit..] == c[limit..]
  {
    assert a[limit..] == a[from..][limit - from..] && b[limit..] == b[from..][limit - from..];
    assert b[limit..] == b[n..][limit - n..] && c[limit..] == c[n..][limit - n..];
  }

  /** The last loop reads on to the first character that is no letter. */
  method SkipLetters(input: array<Byte>, from: nat) returns (at: nat)
    requires Terminated(input[..], from)
    ensures from <= at < input.Length && !IsLetter(input[at])
    ensures forall k :: from <= k < at ==> IsLetter(input[k])
  {
    at := from;
    while IsLetter(input[at])
      invariant from <= at && Terminated(input[..], at)
      invariant forall k :: from <= k < at ==> IsLetter(input[k])
      decreases input.Length - at
    {
      at := at + 1;
    }
  }

  // ---------------------------------------------------------------- encoding

  const UINT_MAX: nat := 0xffff_ffff

  /** AV_BASE64_SIZE. */
  function Base64Size(x: nat): nat {
    (x + 2) / 3 * 4 + 1
  }

  /** An int compared with an unsigned constant. */
  function AsUnsigned(x: int): int {
    if x < 0 then x + WORD else x
  }

  /** The letters of a 4-byte big-endian load are those of its first three bytes. */
  lemma LoadedLetters(a: Byte, b: Byte, c: Byte, d: Byte)
    ensures var bits := LittleEndian(d, c, b, a);
      && bits / 67108864 < 64
      && [Letter(bits / 67108864), Letter(bits / 1048576 % 64), Letter(bits / 16384 % 64), Letter(bits / 256 % 64)]
         == Quad(a, b, c)
  {
    var x := c as nat + 256 * b as nat + 65536 * a as nat;
    assert LittleEndian(d, c, b, a) == 256 * x + d as nat;
    DropByte(x, d);
    TopLetters(a, b, c);
  }

  lemma DropByte(x: nat, d: Byte)
    ensures var v := 256 * x + d as nat;
      v / 256 == x && v / 16384 == x / 64 && v / 1048576 == x / 4096 && v / 67108864 == x / 262144
  {
    var v := 256 * x + d as nat;
    assert v / 256 == x;
    assert v / 16384 == v / 256 / 64 && v / 1048576 == v / 256 / 4096 && v / 67108864 == v / 256 / 262144;
  }

  /** The four sextets of three bytes. */
  lemma TopLetters(a: Byte, b: Byte, c: Byte)
    ensures var x := c as nat + 256 * b as nat + 65536 * a as nat;
      && x / 262144 == a / 4 && x / 4096 % 64 == a % 4 * 16 + b / 16
      && x / 64 % 64 == b % 16 * 4 + c / 64 && x % 64 == c % 64
  {
    var x := c as nat + 256 * b as nat + 65536 * a as nat;
    var p, q, r, s := a / 4, a % 4 * 16 + b / 16, b % 16 * 4 + c / 64, c % 64;
    assert x == ((p * 64 + q) * 64 + r) * 64 + s by {
      assert a == a / 4 * 4 + a % 4 && b == b / 16 * 16 + b % 16 && c == c / 64 * 64 + c % 64;
    }
    FourDigits(x, p, q, r, s);
  }

  lemma FourDigits(x: nat, p: nat, q: nat, r: nat, s: nat)
    requires p < 64 && q < 64 && r < 64 && s < 64 && x == ((p * 64 + q) * 64 + r) * 64 + s
    ensures x / 262144 == p && x / 4096 % 64 == q && x / 64 % 64 == r && x % 64 == s
  {
    var y := (p * 64 + q) * 64 + r;
    assert x / 64 == y;
    assert x / 4096 == p * 64 + q;
  }

  /** x >> n. */
  function ShiftRight(x: nat, n: nat): nat
    decreases n, x
  {
    if n == 0 then x else ShiftRight(x / 2, n - 1)
  }

  lemma {:induction false} ShiftSum(x: nat, n: nat, m: nat)
    ensures ShiftRight(x, n + m) == ShiftRight(ShiftRight(x, n), m)
    decreases n
  {
    if n > 0 {
      ShiftSum(x / 2, n - 1, m);
    }
  }

  lemma ShiftByTwo(x: nat)
    ensures ShiftRight(x, 2) == x / 4
  {
    assert ShiftRight(x / 2, 1) == ShiftRight(x / 2 / 2, 0);
  }

  lemma ShiftByFour(x: nat)
    ensures ShiftRight(x, 4) == x / 16
  {
    ShiftSum(x, 2, 2);
    ShiftByTwo(x);
    ShiftByTwo(x / 4);
    assert x / 4 / 4 == x / 16;
  }

  lemma ShiftBySix(x: nat)
    ensures ShiftRight(x, 6) == x / 64
  {
    ShiftSum(x, 4, 2);
    ShiftByFour(x);
    ShiftByTwo(x / 16);
    assert x / 16 / 4 == x / 64;
  }

  /** (v << 6) >> (n + 6). */
  lemma ShiftAway(v: nat, n: nat)
    ensures ShiftRight(v * 64, n + 6) == ShiftRight(v, n)
  {
    ShiftSum(v * 64, 6, n);
    ShiftBySix(v * 64);
    assert v * 64 / 64 == v;
  }

  /** The letters the tail loop writes. */
  function TailLetters(bits: nat, shift: int): seq<Byte>
    decreases shift, bits
  {
    if shift <= 0 then [] else [Letter(ShiftRight(bits * 64, shift) % 64)] + TailLetters(bits, shift - 6)
  }

  lemma TailStep(v: nat, n: nat)
    ensures TailLetters(v, n + 6) == [Letter(ShiftRight(v, n) % 64)] + TailLetters(v, n)
  {
    ShiftAway(v, n);
  }

  /** The last letter of a group filled with zero bits. */
  lemma TailTwo(v: nat)
    ensures TailLetters(v, 2) == [Letter(v * 16 % 64)]
  {
    ShiftByTwo(v * 64);
    assert v * 64 / 4 == v * 16;
    assert TailLetters(v, -4) == [];
  }

  lemma TailFour(v: nat)
    ensures TailLetters(v, 4) == [Letter(v * 4 % 64)]
  {
    ShiftByFour(v * 64);
    assert v * 64 / 16 == v * 4;
    assert TailLetters(v, -2) == [];
  }

  lemma LowLetters(a: Byte)
    ensures a / 4 % 64 == a / 4 && a as nat * 16 % 64 == a % 4 * 16
  {
    assert a as nat * 16 == 64 * (a / 4) + a % 4 * 16;
  }

  lemma EightBits(v: nat, p: nat, q: nat)
    requires v / 4 % 64 == p && v * 16 % 64 == q
    ensures TailLetters(v, 8) == [Letter(p), Letter(q)]
  {
    TailStep(v, 2);
    ShiftByTwo(v);
    TailTwo(v);
  }

  lemma OneByteTail(a: Byte, v: nat)
    requires v == a
    ensures TailLetters(v, 8) == Encoded([a])[..2] && Encoded([a])[2..] == [PAD, PAD]
  {
    LowLetters(a);
    var p, q := a / 4, a % 4 * 16;
    EightBits(v, p, q);
    assert [Letter(p), Letter(q), PAD, PAD][..2] == [Letter(p), Letter(q)];
  }

  lemma SixteenBits(v: nat, p: nat, q: nat, r: nat)
    requires v / 16 / 64 % 64 == p && v / 16 % 64 == q && v * 4 % 64 == r
    ensures TailLetters(v, 16) == [Letter(p), Letter(q), Letter(r)]
  {
    TailStep(v, 10);
    TailStep(v, 4);
    ShiftSum(v, 4, 6);
    ShiftByFour(v);
    ShiftBySix(v / 16);
    TailFour(v);
  }

  lemma TwoBytesTail(a: Byte, b: Byte, v: nat)
    requires v == a as nat * 256 + b as nat
    ensures TailLetters(v, 16) == Encoded([a, b])[..3] && Encoded([a, b])[3..] == [PAD]
  {
    MiddleLetters(a, b);
    var p, q, r := a / 4, a % 4 * 16 + b / 16, b % 16 * 4;
    SixteenBits(v, p, q, r);
    EncodedPair(a, b);
    assert [Letter(p), Letter(q), Letter(r), PAD][..3] == [Letter(p), Letter(q), Letter(r)];
  }

  lemma EncodedPair(a: Byte, b: Byte)
    ensures Encoded([a, b]) == [Letter(a / 4), Letter(a % 4 * 16 + b / 16), Letter(b % 16 * 4), PAD]
  {
  }

  lemma MiddleLetters(a: Byte, b: Byte)
    ensures var v := a as nat * 256 + b as nat;
      v / 16 / 64 % 64 == a / 4 && v / 16 % 64 == a % 4 * 16 + b / 16 && v * 4 % 64 == b % 16 * 4
  {
    var v := a as nat * 256 + b as nat;
    var p, q, r := a / 4, a % 4 * 16 + b / 16, b % 16 * 4;
    assert v * 4 == (p * 64 + q) * 64 + r by {
      assert a == a / 4 * 4 + a % 4 && b == b / 16 * 16 + b % 16;
    }
    FourDigits(v * 4, 0, p, q, r);
    assert v / 16 == v * 4 / 64;
  }

  lemma TwentyFourBits(v: nat, p: nat, q: nat, r: nat, s: nat)
    requires v / 262144 % 64 == p && v / 4096 % 64 == q && v / 64 % 64 == r && v % 64 == s
    ensures TailLetters(v, 24) == [Letter(p), Letter(q), Letter(r), Letter(s)]
  {
    TailStep(v, 18);
    TailStep(v, 12);
    TailStep(v, 6);
    TailStep(v, 0);
    assert TailLetters(v, 0) == [];
    ShiftSixes(v);
  }

  lemma ThreeBytesTail(a: Byte, b: Byte, c: Byte, v: nat)
    requires v == (a as nat * 256 + b as nat) * 256 + c as nat
    ensures TailLetters(v, 24) == Encoded([a, b, c])
  {
    TopLetters(a, b, c);
    LowLetters(a);
    TwentyFourBits(v, a / 4, a % 4 * 16 + b / 16, b % 16 * 4 + c / 64, c % 64);
    EncodedTriple(a, b, c);
  }

  lemma EncodedTriple(a: Byte, b: Byte, c: Byte)
    ensures Encoded([a, b, c]) == Quad(a, b, c)
  {
    assert [a, b, c][3..] == [];
  }

  lemma ShiftSixes(v: nat)
    ensures ShiftRight(v, 0) == v && ShiftRight(v, 6) == v / 64
    ensures ShiftRight(v, 12) == v / 4096 && ShiftRight(v, 18) == v / 262144
  {
    ShiftBySix(v);
    ShiftSum(v, 6, 6);
    ShiftBySix(v / 64);
    assert v / 64 / 64 == v / 4096;
    ShiftSum(v, 12, 6);
    ShiftBySix(v / 4096);
    assert v / 4096 / 64 == v / 262144;
  }

  // The tail of an encoding

  /** The one, two or three last bytes as the bits of one word. */
  function BitsOf(s: seq<Byte>): nat {
    if s == [] then 0 else BitsOf(s[..|s| - 1]) * 256 + s[|s| - 1] as nat
  }

  function Pads(n: nat): (p: seq<Byte>)
    ensures |p| == n
  {
    seq(n, _ => PAD)
  }

  lemma BitsOfOne(a: Byte)
    ensures BitsOf([a]) == a as nat
  {
    assert [a][..0] == [];
  }

  lemma BitsOfFew(a: Byte, b: Byte, c: Byte)
    ensures BitsOf([a, b]) == a as nat * 256 + b as nat
    ensures BitsOf([a, b, c]) == (a as nat * 256 + b as nat) * 256 + c as nat
  {
    BitsOfOne(a);
    assert [a, b][..1] == [a] && [a, b, c][..2] == [a, b];
  }

  /** t is s encoded, but for the padding. */
  ghost predicate Unpadded(t: seq<Byte>, s: seq<Byte>) {
    |t| <= 4 && t + Pads((4 - |t|) % 4) == Encoded(s)
  }

  lemma TailIsEncoded(s: seq<Byte>)
    requires |s| <= 3
    ensures Unpadded(TailLetters(BitsOf(s), 8 * |s|), s)
  {
    if s == [] {
      NoTail();
    } else if |s| == 1 {
      OneTail(s);
    } else if |s| == 2 {
      TwoTail(s);
    } else {
      ThreeTail(s);
    }
  }

  lemma NoTail()
    ensures Unpadded(TailLetters(BitsOf([]), 0), [])
  {
    assert TailLetters(0, 0) == [] && Pads(0) == [];
  }

  lemma OneTail(s: seq<Byte>)
    requires |s| == 1
    ensures Unpadded(TailLetters(BitsOf(s), 8), s)
  {
    assert s == [s[0]];
    TailOfOne(s, s[0]);
  }

  lemma TailOfOne(s: seq<Byte>, a: Byte)
    requires s == [a]
    ensures Unpadded(TailLetters(BitsOf(s), 8), s)
  {
    BitsOfOne(a);
    var v := BitsOf(s);
    OneByteTail(a, v);
    Completes(TailLetters(v, 8), Encoded(s), 2);
  }

  lemma TwoTail(s: seq<Byte>)
    requires |s| == 2
    ensures Unpadded(TailLetters(BitsOf(s), 16), s)
  {
    assert s == [s[0], s[1]];
    BitsOfFew(s[0], s[1], 0);
    var v := BitsOf(s);
    TwoBytesTail(s[0], s[1], v);
    Completes(TailLetters(v, 16), Encoded(s), 3);
  }

  lemma ThreeTail(s: seq<Byte>)
    requires |s| == 3
    ensures Unpadded(TailLetters(BitsOf(s), 24), s)
  {
    assert s == [s[0], s[1], s[2]];
    BitsOfFew(s[0], s[1], s[2]);
    var v := BitsOf(s);
    ThreeBytesTail(s[0], s[1], s[2], v);
    Completes(TailLetters(v, 24), Encoded(s), 4);
  }

  lemma Completes(t: seq<Byte>, e: seq<Byte>, k: nat)
    requires |e| == 4 && 1 <= k <= 4 && t == e[..k] && e[k..] == Pads(4 - k)
    ensures |t| == k && t + Pads((4 - |t|) % 4) == e
  {
  }

  /** The main loop's turn: a 4-byte load, three bytes taken, four letters written. */
  method PutQuad(out: array<Byte>, at: nat, input: array<Byte>, k: nat)
    requires out != input && at + 4 <= out.Length && k + 4 <= input.Length
    modifies out
    ensures out[..at + 4] == old(out[..at]) + Quad(input[k], input[k + 1], input[k + 2])
    ensures out[at + 4..] == old(out[at + 4..])
  {
    var a, b, c, d := input[k], input[k + 1], input[k + 2], input[k + 3];
    LoadIsBigEndian(a, b, c, d);
    LoadedLetters(a, b, c, d);
    var bits := BSwap32(LittleEndian(a, b, c, d));
    PutLetters(out, at, Letter(bits / 67108864), Letter(bits / 1048576 % 64),
               Letter(bits / 16384 % 64), Letter(bits / 256 % 64));
  }

  method PutLetters(out: array<Byte>, at: nat, p: Byte, q: Byte, r: Byte, s: Byte)
    requires at + 4 <= out.Length
    modifies out
    ensures out[..at + 4] == old(out[..at]) + [p, q, r, s]
    ensures out[at + 4..] == old(out[at + 4..])
  {
    out[at] := p;
    out[at + 1] := q;
    out[at + 2] := r;
    out[at + 3] := s;
  }

  /** k of n bytes are encoded, in whole groups. */
  ghost predicate Encoding(s: seq<Byte>, n: nat, written: seq<Byte>, k: nat) {
    && k <= n <= |s| && 3 * |written| == 4 * k && |written| % 4 == 0
    && written + Encoded(s[k..n]) == Encoded(s[..n])
  }

  lemma EncodedFrom(s: seq<Byte>, n: nat, k: nat)
    requires k + 3 < n <= |s|
    ensures Encoded(s[k..n]) == Quad(s[k], s[k + 1], s[k + 2]) + Encoded(s[k + 3..n])
  {
    assert s[k..n][3..] == s[k + 3..n];
  }

  lemma FourMore(length: nat, k: nat)
    requires 3 * length == 4 * k && length % 4 == 0
    ensures 3 * (length + 4) == 4 * (k + 3) && (length + 4) % 4 == 0
  {
  }

  lemma EncodingMore(s: seq<Byte>, n: nat, written: seq<Byte>, k: nat)
    requires Encoding(s, n, written, k) && k + 3 < n
    ensures Encoding(s, n, written + Quad(s[k], s[k + 1], s[k + 2]), k + 3)
  {
    var quad := Quad(s[k], s[k + 1], s[k + 2]);
    EncodedFrom(s, n, k);
    FourMore(|written|, k);
    assert |written + quad| == |written| + 4;
    Shifts(written, quad, Encoded(s[k + 3..n]), Encoded(s[k..n]), Encoded(s[..n]));
  }

  /** The main loop: three bytes at a time while more than three are left. */
  method Quads(out: array<Byte>, input: array<Byte>, inSize: nat) returns (dst: nat, k: nat)
    requires out != input && inSize <= input.Length && Base64Size(inSize) <= out.Length
    modifies out
    ensures inSize <= k + 3 && dst <= Base64Size(inSize) && Encoding(input[..], inSize, out[..dst], k)
    ensures out[Base64Size(inSize)..] == old(out[Base64Size(inSize)..])
  {
    dst, k := 0, 0;
    ghost var s, size := input[..], Base64Size(inSize);
    while inSize - k > 3
      invariant k <= inSize && 3 * dst == 4 * k && Encoding(s, inSize, out[..dst], k)
      invariant out[size..] == old(out[size..])
    {
      EncodingMore(s, inSize, out[..dst], k);
      PutQuad(out, dst, input, k);
      assert out[size..] == out[dst + 4..][size - dst - 4..];
      dst, k := dst + 4, k + 3;
    }
  }

  /** The tail: the last bytes gathered, their letters, the padding. */
  method TailWord(input: array<Byte>, from: nat, to: nat) returns (bits: nat, shift: int)
    requires from <= to <= from + 3 && to <= input.Length
    ensures bits == BitsOf(input[from..to]) && shift == 8 * (to - from)
  {
    bits, shift := 0, 0;
    var k := from;
    while k < to
      invariant from <= k <= to && bits == BitsOf(input[from..k]) && shift == 8 * (k - from)
    {
      bits := bits * 256 + input[k] as nat;
      assert input[from..k + 1][..k - from] == input[from..k];
      k := k + 1;
      shift := shift + 8;
    }
  }

  method PutTail(out: array<Byte>, at: nat, bits: nat, shift: int) returns (n: nat)
    requires at + |TailLetters(bits, shift)| <= out.Length
    modifies out
    ensures n == at + |TailLetters(bits, shift)|
    ensures out[..n] == old(out[..at]) + TailLetters(bits, shift) && out[n..] == old(out[n..])
  {
    n := at;
    var left := shift;
    while left > 0
      invariant at <= n <= n + |TailLetters(bits, left)| == at + |TailLetters(bits, shift)|
      invariant out[..n] + TailLetters(bits, left) == old(out[..at]) + TailLetters(bits, shift)
      invariant out[n..] == old(out[n..])
      decreases left
    {
      out[n] := Letter(ShiftRight(bits * 64, left) % 64);
      n := n + 1;
      left := left - 6;
    }
  }

  method PutPadding(out: array<Byte>, at: nat) returns (n: nat)
    requires at + (4 - at % 4) % 4 <= out.Length
    modifies out
    ensures n == at + (4 - at % 4) % 4
    ensures out[..n] == old(out[..at]) + Pads(n - at) && out[n..] == old(out[n..])
  {
    n := at;
    while n % 4 != 0
      invariant at <= n <= at + (4 - at % 4) % 4
      invariant out[..n] == old(out[..at]) + Pads(n - at) && out[n..] == old(out[n..])
      decreases at + 4 - n
    {
      ghost var w := out[..n];
      assert w + [PAD] == old(out[..at]) + (Pads(n - at) + [PAD]);
      assert Pads(n - at) + [PAD] == Pads(n + 1 - at);
      out[n] := PAD;
      n := n + 1;
      assert out[..n] == w + [PAD];
    }
  }

  /** base64_encode: the encoding and a NUL, or nothing written when a size does not fit. */
  method Encode(out: array<Byte>, outSize: int, input: array<Byte>, inSize: int) returns (ok: bool)
    requires out != input && outSize <= out.Length && inSize <= input.Length && -0x8000_0000 <= inSize < 0x8000_0000
    modifies out
    ensures ok <==> 0 <= inSize < UINT_MAX / 4 && outSize >= Base64Size(inSize)
    ensures ok ==> out[..Base64Size(inSize)] == Encoded(input[..inSize]) + [0]
    ensures ok ==> out[Base64Size(inSize)..] == old(out[Base64Size(inSize)..])
    ensures !ok ==> out[..] == old(out[..])
  {
    if AsUnsigned(inSize) >= UINT_MAX / 4 || outSize < Base64Size(inSize) {
      return false;
    }
    var dst, k := Quads(out, input, inSize);
    var bits, shift := TailWord(input, k, inSize);
    FinishTail(out, input[..], inSize, dst, k, bits, shift);
    return true;
  }

  /** The tail letters and the padding. */
  method PutGroup(out: array<Byte>, at: nat, bits: nat, shift: int) returns (n: nat)
    requires var t := TailLetters(bits, shift); at % 4 == 0 && |t| <= 4 && at + |t| + (4 - |t|) % 4 <= out.Length
    modifies out
    ensures var t := TailLetters(bits, shift);
      n == at + |t| + (4 - |t|) % 4 && out[..n] == old(out[..at]) + (t + Pads((4 - |t|) % 4))
    ensures out[n..] == old(out[n..])
  {
    ghost var w, t := out[..at], TailLetters(bits, shift);
    n := PutTail(out, at, bits, shift);
    assert out[..n] == w + t;
    n := PutPadding(out, n);
    assert out[..n] == w + t + Pads((4 - |t|) % 4);
    Associates(w, t, Pads((4 - |t|) % 4));
  }

  /** The tail group completes the encoding, one byte short of AV_BASE64_SIZE. */
  lemma TailCompletes(s: seq<Byte>, n: nat, written: seq<Byte>, k: nat, t: seq<Byte>)
    requires Encoding(s, n, written, k) && n <= k + 3
    requires t == TailLetters(BitsOf(s[k..n]), 8 * (n - k))
    ensures |t| <= 4 && written + (t + Pads((4 - |t|) % 4)) == Encoded(s[..n])
    ensures |written| + |t| + (4 - |t|) % 4 + 1 == Base64Size(n)
  {
    TailIsEncoded(s[k..n]);
  }

  lemma Replaced(before: seq<Byte>, mid: seq<Byte>, n: nat)
    requires n < |mid| == |before| && mid[n..] == before[n..]
    ensures mid[n := 0][..n + 1] == mid[..n] + [0] && mid[n := 0][n + 1..] == before[n + 1..]
  {
    assert mid[n..][1..] == mid[n + 1..] && before[n..][1..] == before[n + 1..];
  }

  /** The tail group and the NUL. */
  method FinishTail(out: array<Byte>, ghost s: seq<Byte>, inSize: nat, dst: nat, ghost k: nat, bits: nat, shift: int)
    requires Base64Size(inSize) <= out.Length && inSize <= k + 3 && dst <= out.Length
    requires Encoding(s, inSize, out[..dst], k)
    requires bits == BitsOf(s[k..inSize]) && shift == 8 * (inSize - k)
    modifies out
    ensures out[..Base64Size(inSize)] == Encoded(s[..inSize]) + [0]
    ensures out[Base64Size(inSize)..] == old(out[Base64Size(inSize)..])
  {
    TailCompletes(s, inSize, out[..dst], k, TailLetters(bits, shift));
    ghost var before := out[..];
    var n := PutGroup(out, dst, bits, shift);
    ghost var mid := out[..];
    assert mid[..n] == Encoded(s[..inSize]) && mid[n..] == before[n..] && n + 1 == Base64Size(inSize);
    out[n] := 0;
    assert out[..] == mid[n := 0];
    Replaced(before, mid, n);
  }

  /** Decoding what Encode wrote, into any buffer of at least the original size, stays inside that
      size and gives the original bytes and nothing else. */
  lemma DecodesBack(s: seq<Byte>, after: seq<Byte>, outSize: nat, written: seq<Byte>)
    requires |s| <= outSize && after != [] && after[0] == 0
    ensures Limit(Encoded(s) + after, outSize) == outSize
    ensures IsResult(Encoded(s) + after, written, outSize) <==> written == s
  {
    EnoughRoom(s, after, outSize);
    RoundTrip(s, after);
    WholeResult(Encoded(s) + after, s, written, outSize);
  }

  lemma WholeResult(t: seq<Byte>, s: seq<Byte>, written: seq<Byte>, outSize: nat)
    requires Decoded(Sextets(t)) == s && |s| <= Limit(t, outSize)
    ensures IsResult(t, written, outSize) <==> written == s
  {
    assert s[..|s|] == s;
  }

  lemma EncodedTerminates(s: seq<Byte>, after: seq<Byte>)
    requires after != [] && after[0] == 0
    ensures Terminated(Encoded(s) + after, 0)
  {
    assert (Encoded(s) + after)[|Encoded(s)|] == 0;
  }
}
