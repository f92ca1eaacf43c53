/** Base64 after RFC 4648, section 4, and what decoding a text means, valid or not. */
module Base64Model {
  import opened Bytes

  const PAD: Byte := 61 // '='

  // ---------------------------------------------------------------- the alphabet

  /** b64, the alphabet. */
  function Letter(v: nat): Byte
    requires v < 64
  {
    if v < 26 then 65 + v            // 'A'..'Z'
    else if v < 52 then 97 + v - 26  // 'a'..'z'
    else if v < 62 then 48 + v - 52  // '0'..'9'
    else if v == 62 then 43          // '+'
    else 47                          // '/'
  }

  /** map2: the sextet a character stands for; 0xfe for NUL and '=', 0xff for any other character. */
  function Map2(c: Byte): Byte {
    if 65 <= c <= 90 then c - 65
    else if 97 <= c <= 122 then 26 + c - 97
    else if 48 <= c <= 57 then 52 + c - 48
    else if c == 43 then 62
    else if c == 47 then 63
    else if c == 0 || c == PAD then 0xfe
    else 0xff
  }

  const UPPER := "ABCDEFGHIJKLMNOPQRSTUVWXYZ"
  const LOWER := "abcdefghijklmnopqrstuvwxyz"
  const DIGITS := "0123456789"

  /** The alphabet of RFC 4648, table 1. */
  const ALPHABET := UPPER + LOWER + DIGITS + "+/"

  lemma UpperAt(v: nat)
    requires v < 26
    ensures UPPER[v] as int == 65 + v
  {
  }

  lemma LowerAt(v: nat)
    requires v < 26
    ensures LOWER[v] as int == 97 + v
  {
  }

  lemma DigitAt(v: nat)
    requires v < 10
    ensures DIGITS[v] as int == 48 + v
  {
  }

  lemma RowsOfAlphabet(v: nat)
    requires v < 64
    ensures |ALPHABET| == 64
    ensures ALPHABET[v] == if v < 26 then UPPER[v] else if v < 52 then LOWER[v - 26]
                           else if v < 62 then DIGITS[v - 52] else "+/"[v - 62]
  {
  }

  /** The letter of a sextet is its character in the alphabet, and map2 reads it back. */
  lemma LetterIsInAlphabet(v: nat)
    requires v < 64
    ensures |ALPHABET| == 64 && Letter(v) == ALPHABET[v] as int && Map2(Letter(v)) == v
  {
    RowsOfAlphabet(v);
    if v < 26 { UpperAt(v); } else if v < 52 { LowerAt(v - 26); } else if v < 62 { DigitAt(v - 52); }
  }

  predicate IsLetter(c: Byte) {
    Map2(c) < 0x80
  }

  /** The letters are exactly the characters that stand for a sextet, one each. */
  lemma AlphabetIsExact(c: Byte)
    ensures IsLetter(c) <==> exists v: nat :: v < 64 && Letter(v) == c
    ensures IsLetter(c) ==> Map2(c) < 64 && Letter(Map2(c)) == c
  {
    if IsLetter(c) {
      assert Letter(Map2(c)) == c;
    }
  }

  lemma LetterReads(v: nat)
    requires v < 64
    ensures IsLetter(Letter(v)) && Map2(Letter(v)) == v
  {
  }

  // ---------------------------------------------------------------- encoding

  /** Each 24-bit group becomes four letters; a final group of 8 or 16 bits is filled with zero bits
      and padded. */
  function Encoded(s: seq<Byte>): (t: seq<Byte>)
    ensures |t| == (|s| + 2) / 3 * 4
  {
    if s == [] then []
    else if |s| == 1 then [Letter(s[0] / 4), Letter(s[0] % 4 * 16), PAD, PAD]
    else if |s| == 2 then [Letter(s[0] / 4), Letter(s[0] % 4 * 16 + s[1] / 16), Letter(s[1] % 16 * 4), PAD]
    else Quad(s[0], s[1], s[2]) + Encoded(s[3..])
  }

  function Quad(a: Byte, b: Byte, c: Byte): seq<Byte> {
    [Letter(a / 4), Letter(a % 4 * 16 + b / 16), Letter(b % 16 * 4 + c / 64), Letter(c % 64)]
  }

  // ---------------------------------------------------------------- decoding

  type Sextet = v: nat | v < 64

  /** The sextets before the first character that is no letter. */
  function Sextets(t: seq<Byte>): (sx: seq<Sextet>)
    ensures |sx| <= |t|
  {
    if t == [] || !IsLetter(t[0]) then [] else [Map2(t[0]) as Sextet] + Sextets(t[1..])
  }

  /** The three bytes in four sextets. */
  function High(a: nat, b: nat): Byte
    requires a < 64 && b < 64
  {
    a * 4 + b / 16
  }

  function Middle(b: nat, c: nat): Byte
    requires b < 64 && c < 64
  {
    b % 16 * 16 + c / 4
  }

  function Low(c: nat, d: nat): Byte
    requires c < 64 && d < 64
  {
    c % 4 * 64 + d
  }

  /** The whole bytes in a run of sextets. */
  function Decoded(sx: seq<Sextet>): (s: seq<Byte>)
    ensures |s| == 3 * |sx| / 4
  {
    if |sx| < 2 then []
    else if |sx| == 2 then [High(sx[0], sx[1])]
    else if |sx| == 3 then [High(sx[0], sx[1]), Middle(sx[1], sx[2])]
    else [High(sx[0], sx[1]), Middle(sx[1], sx[2]), Low(sx[2], sx[3])] + Decoded(sx[4..])
  }

  /** The decoder stores a three-letter tail without looking at the room left: with room for only one
      more byte it writes one byte too many. */
  function Overrun(sextets: nat, outSize: nat): nat {
    if outSize % 3 == 1 && sextets == outSize / 3 * 4 + 3 then 1 else 0
  }

  function Min(a: nat, b: nat): nat {
    if a < b then a else b
  }

  /** The overrun is exactly the case of a result longer than the buffer. */
  lemma OverrunExactlyWhen(sextets: nat, outSize: nat)
    ensures Min(3 * sextets / 4, outSize + Overrun(sextets, outSize)) <= outSize <==> Overrun(sextets, outSize) == 0
  {
  }

  lemma {:induction false} SextetsEnd(t: seq<Byte>, length: nat)
    requires length < |t| && t[length] == 0
    ensures |Sextets(t)| <= length
    decreases length
  {
    if length > 0 && IsLetter(t[0]) { SextetsEnd(t[1..], length - 1); }
  }

  /** In a buffer of at least three quarters of the text's length, as the interface demands, every
      text's result fits as a whole. */
  lemma RoomAsDemanded(t: seq<Byte>, length: nat, outSize: nat)
    requires length < |t| && t[length] == 0 && 4 * outSize >= 3 * length
    ensures var sextets := |Sextets(t)|;
      Overrun(sextets, outSize) == 0 && Min(3 * sextets / 4, outSize) == |Decoded(Sextets(t))|
  {
    SextetsEnd(t, length);
  }

  // ---------------------------------------------------------------- round trip

  /** Decoding an encoded text, whatever follows its end, gives back the bytes. */
  lemma {:induction false} RoundTrip(s: seq<Byte>, after: seq<Byte>)
    requires after != [] && after[0] == 0
    ensures Decoded(Sextets(Encoded(s) + after)) == s
  {
    if s == [] {
    } else if |s| == 1 {
      assert s == [s[0]];
      OneByteRoundTrip(s[0], after);
    } else if |s| == 2 {
      assert s == [s[0], s[1]];
      TwoBytesRoundTrip(s[0], s[1], after);
    } else {
      RoundTrip(s[3..], after);
      LongRoundTrip(s, after);
    }
  }

  lemma LongRoundTrip(s: seq<Byte>, after: seq<Byte>)
    requires |s| >= 3 && Decoded(Sextets(Encoded(s[3..]) + after)) == s[3..]
    ensures Decoded(Sextets(Encoded(s) + after)) == s
  {
    var quad, t := Quad(s[0], s[1], s[2]), Encoded(s[3..]) + after;
    assert Encoded(s) + after == quad + t;
    QuadRoundTrip(s[0], s[1], s[2], t);
  }

  lemma OneSextet(a: nat, t: seq<Byte>)
    requires a < 64
    ensures Sextets([Letter(a)] + t) == [a as Sextet] + Sextets(t)
  {
    LetterReads(a);
    assert ([Letter(a)] + t)[1..] == t;
  }

  lemma FourSextets(a: nat, b: nat, c: nat, d: nat, t: seq<Byte>)
    requires a < 64 && b < 64 && c < 64 && d < 64
    ensures Sextets([Letter(a), Letter(b), Letter(c), Letter(d)] + t) ==
            [a as Sextet, b as Sextet, c as Sextet, d as Sextet] + Sextets(t)
  {
    var t1 := [Letter(d)] + t;
    var t2 := [Letter(c)] + t1;
    var t3 := [Letter(b)] + t2;
    OneSextet(d, t);
    OneSextet(c, t1);
    OneSextet(b, t2);
    OneSextet(a, t3);
    assert [Letter(a), Letter(b), Letter(c), Letter(d)] + t == [Letter(a)] + t3;
  }

  /** The sextets of three bytes give the bytes back. */
  lemma Regroups(a: Byte, b: Byte, c: Byte)
    ensures High(a / 4, a % 4 * 16 + b / 16) == a
    ensures Middle(a % 4 * 16 + b / 16, b % 16 * 4 + c / 64) == b
    ensures Low(b % 16 * 4 + c / 64, c % 64) == c
  {
  }

  lemma QuadRoundTrip(a: Byte, b: Byte, c: Byte, t: seq<Byte>)
    ensures Decoded(Sextets(Quad(a, b, c) + t)) == [a, b, c] + Decoded(Sextets(t))
  {
    FourSextets(a / 4, a % 4 * 16 + b / 16, b % 16 * 4 + c / 64, c % 64, t);
    var sx := Sextets(Quad(a, b, c) + t);
    assert sx[4..] == Sextets(t);
    Regroups(a, b, c);
  }

  lemma OneByteRoundTrip(a: Byte, after: seq<Byte>)
    ensures Decoded(Sextets(Encoded([a]) + after)) == [a]
  {
    var t := [PAD, PAD] + after;
    var b := a % 4 * 16;
    OneSextet(b, t);
    OneSextet(a / 4, [Letter(b)] + t);
    assert Encoded([a]) + after == [Letter(a / 4)] + ([Letter(b)] + t);
    assert Sextets(Encoded([a]) + after) == [a / 4, b];
    Regroups(a, 0, 0);
  }

  lemma TwoBytesRoundTrip(a: Byte, b: Byte, after: seq<Byte>)
    ensures Decoded(Sextets(Encoded([a, b]) + after)) == [a, b]
  {
    var t := [PAD] + after;
    var p, q := a % 4 * 16 + b / 16, b % 16 * 4;
    OneSextet(q, t);
    OneSextet(p, [Letter(q)] + t);
    OneSextet(a / 4, [Letter(p)] + ([Letter(q)] + t));
    assert Encoded([a, b]) + after == [Letter(a / 4)] + ([Letter(p)] + ([Letter(q)] + t));
    assert Sextets(Encoded([a, b]) + after) == [a / 4, p, q];
    Regroups(a, b, 0);
  }

  /** A buffer of at least the original size takes the whole result without an overrun. */
  lemma EnoughRoom(s: seq<Byte>, after: seq<Byte>, outSize: nat)
    requires after != [] && after[0] == 0 && |s| <= outSize
    ensures var sx := Sextets(Encoded(s) + after);
      Overrun(|sx|, outSize) == 0 && Min(|Decoded(sx)|, outSize) == |s|
  {
    RoundTrip(s, after);
  }
}
