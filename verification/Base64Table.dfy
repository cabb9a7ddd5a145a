/** The encoding against the alphabet of section 5 of RFC 4648: its characters are the bits of the bytes, six at a
    time. */
module Base64Table {
  import opened Basics
  import opened Base64Url

  const ALPHABET := "ABCDEFGHIJKLMNOPQRSTUVWXYZ" + "abcdefghijklmnopqrstuvwxyz" + "0123456789" + "-_"

  type Bits = seq<int>

  /** The last `width` bits of a number, the most significant first. */
  function BitsOf(n: nat, width: nat): (bits: Bits)
    ensures |bits| == width
  {
    if width == 0 then [] else BitsOf(n / 2, width - 1) + [n % 2]
  }

  function ByteBits(data: seq<Byte>): (bits: Bits)
    ensures |bits| == 8 * |data|
  {
    if data == [] then [] else BitsOf(data[0], 8) + ByteBits(data[1..])
  }

  /** The place of a character in the alphabet, 64 if it has none. */
  function Place(table: string, c: char): nat {
    if table == "" then 0 else if table[0] == c then 0 else 1 + Place(table[1..], c)
  }

  /** The bits of the places of a text's characters. */
  function TextBits(table: string, text: string): (bits: Bits)
    ensures |bits| == 6 * |text|
  {
    if text == "" then [] else BitsOf(Place(table, text[0]), 6) + TextBits(table, text[1..])
  }

  function Zeros(n: nat): (bits: Bits)
    ensures |bits| == n
  {
    seq(n, _ => 0)
  }

  // ---------------------------------------------------------------- the table

  lemma AlphabetParts(n: nat)
    requires n < 64
    ensures |ALPHABET| == 64
    ensures ALPHABET[n] == if n < 26 then "ABCDEFGHIJKLMNOPQRSTUVWXYZ"[n]
                           else if n < 52 then "abcdefghijklmnopqrstuvwxyz"[n - 26]
                           else if n < 62 then "0123456789"[n - 52] else "-_"[n - 62]
  {
  }

  lemma UpperCase(n: nat)
    requires n < 26
    ensures "ABCDEFGHIJKLMNOPQRSTUVWXYZ"[n] as int == 65 + n
  {
  }

  lemma LowerCase(n: nat)
    requires n < 26
    ensures "abcdefghijklmnopqrstuvwxyz"[n] as int == 97 + n
  {
  }

  lemma Numerals(n: nat)
    requires n < 10
    ensures "0123456789"[n] as int == 48 + n
  {
  }

  lemma DigitIsInTable(n: Sextet)
    ensures |ALPHABET| == 64 && ALPHABET[n] == Digit(n)
  {
    AlphabetParts(n);
    if n < 26 {
      UpperCase(n);
    } else if n < 52 {
      LowerCase(n - 26);
    } else if n < 62 {
      Numerals(n - 52);
    }
  }

  lemma DigitsDiffer(m: Sextet, n: Sextet)
    ensures Digit(m) == Digit(n) <==> m == n
  {
    DigitFacts(m);
    DigitFacts(n);
  }

  lemma {:induction false} PlaceFrom(n: Sextet, k: nat)
    requires k <= n
    ensures k <= |ALPHABET| && Place(ALPHABET[k..], Digit(n)) == n - k
    decreases n - k
  {
    DigitIsInTable(n);
    DigitIsInTable(k);
    DigitsDiffer(k, n);
    var rest := ALPHABET[k..];
    assert rest[0] == ALPHABET[k];
    if k < n {
      assert rest[1..] == ALPHABET[k + 1..];
      PlaceFrom(n, k + 1);
    }
  }

  lemma PlaceOfDigit(n: Sextet)
    ensures Place(ALPHABET, Digit(n)) == n
  {
    PlaceFrom(n, 0);
    assert ALPHABET[0..] == ALPHABET;
  }

  /** The encoder's digits are in the table at their places. */
  ghost predicate Lists(table: string) {
    forall n: Sextet {:trigger Digit(n)} :: Place(table, Digit(n)) == n
  }

  // ---------------------------------------------------------------- splitting numbers into bits

  /** The bits of a number are those of its quotient and those of its remainder by a power of two. */
  lemma SplitTwo(n: nat, u: nat)
    ensures BitsOf(n, u + 2) == BitsOf(n / 4, u) + BitsOf(n % 4, 2)
  {
    assert BitsOf(n, u + 2) == BitsOf(n / 2, u + 1) + [n % 2];
    assert BitsOf(n / 2, u + 1) == BitsOf(n / 2 / 2, u) + [n / 2 % 2];
    assert BitsOf(n % 4, 2) == BitsOf(n % 4 / 2, 1) + [n % 4 % 2];
    assert BitsOf(n % 4 / 2, 1) == [] + [n % 4 / 2 % 2];
  }

  lemma SplitFour(n: nat, u: nat)
    ensures BitsOf(n, u + 4) == BitsOf(n / 16, u) + BitsOf(n % 16, 4)
  {
    SplitTwo(n, u + 2);
    SplitTwo(n / 4, u);
    SplitTwo(n % 16, 2);
    assert n / 4 / 4 == n / 16 && n % 16 / 4 == n / 4 % 4 && n % 16 % 4 == n % 4;
  }

  lemma SplitSix(n: nat, u: nat)
    ensures BitsOf(n, u + 6) == BitsOf(n / 64, u) + BitsOf(n % 64, 6)
  {
    SplitTwo(n, u + 4);
    SplitFour(n / 4, u);
    SplitTwo(n % 64, 4);
    assert n / 4 / 16 == n / 64 && n % 64 / 4 == n / 4 % 16 && n % 64 % 4 == n % 4;
  }

  /** Four sextets have the bits of three bytes. */
  lemma SextetsHaveTheBits(a: Byte, b: Byte, c: Byte)
    ensures BitsOf(a / 4, 6) + BitsOf(a % 4 * 16 + b / 16, 6) + BitsOf(b % 16 * 4 + c / 64, 6) + BitsOf(c % 64, 6)
         == BitsOf(a, 8) + BitsOf(b, 8) + BitsOf(c, 8)
  {
    SplitTwo(a, 6);
    SplitFour(b, 4);
    SplitSix(c, 2);
    SecondSextet(a, b);
    ThirdSextet(b, c);
    ThreeInFour(BitsOf(a / 4, 6), BitsOf(a % 4, 2), BitsOf(b / 16, 4), BitsOf(b % 16, 4), BitsOf(c / 64, 2), BitsOf(c % 64, 6));
  }

  lemma ThreeInFour<T>(a: seq<T>, a': seq<T>, b: seq<T>, b': seq<T>, c: seq<T>, c': seq<T>)
    ensures a + (a' + b) + (b' + c) + c' == (a + a') + (b + b') + (c + c')
  {
  }

  lemma SecondSextet(a: Byte, b: Byte)
    ensures BitsOf(a % 4 * 16 + b / 16, 6) == BitsOf(a % 4, 2) + BitsOf(b / 16, 4)
  {
    var q := a % 4 * 16 + b / 16;
    SplitFour(q, 2);
    assert q / 16 == a % 4 && q % 16 == b / 16;
  }

  lemma ThirdSextet(b: Byte, c: Byte)
    ensures BitsOf(b % 16 * 4 + c / 64, 6) == BitsOf(b % 16, 4) + BitsOf(c / 64, 2)
  {
    var r := b % 16 * 4 + c / 64;
    SplitTwo(r, 4);
    assert r / 4 == b % 16 && r % 4 == c / 64;
  }

  lemma TextBitsAppend(table: string, s: string, t: string)
    ensures TextBits(table, s + t) == TextBits(table, s) + TextBits(table, t)
  {
    if s == "" {
      assert s + t == t;
    } else {
      assert (s + t)[1..] == s[1..] + t;
      TextBitsAppend(table, s[1..], t);
    }
  }

  lemma TextBitsOfDigit(table: string, n: Sextet, rest: string)
    requires Lists(table)
    ensures TextBits(table, [Digit(n)] + rest) == BitsOf(n, 6) + TextBits(table, rest)
  {
    assert ([Digit(n)] + rest)[1..] == rest;
  }

  lemma Regrouped<T>(a: seq<T>, b: seq<T>, c: seq<T>)
    ensures a + (b + c) == (a + b) + c
  {
  }

  lemma TwoAndTwo<T>(a: T, b: T, c: T, d: T)
    ensures [a, b, c, d] == [a, b] + [c, d]
  {
  }

  lemma ThreeAndRest<T>(s: seq<T>)
    requires |s| >= 3
    ensures s == [s[0], s[1], s[2]] + s[3..]
  {
  }

  lemma TextBitsOfTwo(table: string, p: Sextet, q: Sextet)
    requires Lists(table)
    ensures TextBits(table, [Digit(p), Digit(q)]) == BitsOf(p, 6) + BitsOf(q, 6)
  {
    TextBitsOfDigit(table, q, "");
    TextBitsOfDigit(table, p, [Digit(q)]);
    assert [Digit(q)] + "" == [Digit(q)] && [Digit(p)] + [Digit(q)] == [Digit(p), Digit(q)];
  }

  lemma TextBitsOfFour(table: string, p: Sextet, q: Sextet, r: Sextet, s: Sextet)
    requires Lists(table)
    ensures TextBits(table, [Digit(p), Digit(q), Digit(r), Digit(s)]) == BitsOf(p, 6) + BitsOf(q, 6) + BitsOf(r, 6) + BitsOf(s, 6)
  {
    TextBitsOfTwo(table, p, q);
    TextBitsOfTwo(table, r, s);
    TwoAndTwo(Digit(p), Digit(q), Digit(r), Digit(s));
    TextBitsAppend(table, [Digit(p), Digit(q)], [Digit(r), Digit(s)]);
    Regrouped(BitsOf(p, 6) + BitsOf(q, 6), BitsOf(r, 6), BitsOf(s, 6));
  }

  lemma GroupBits(table: string, a: Byte, b: Byte, c: Byte)
    requires Lists(table)
    ensures TextBits(table, Group(a, b, c)) == BitsOf(a, 8) + BitsOf(b, 8) + BitsOf(c, 8)
  {
    TextBitsOfFour(table, a / 4, a % 4 * 16 + b / 16, b % 16 * 4 + c / 64, c % 64);
    SextetsHaveTheBits(a, b, c);
  }

  lemma PrefixOfSum(a: Bits, b: Bits)
    ensures (a + b)[..|a|] == a
  {
  }

  /** A shorter text has the first bits. */
  lemma TextBitsPrefix(table: string, t: string, k: nat)
    requires k <= |t|
    ensures TextBits(table, t[..k]) == TextBits(table, t)[..6 * k]
  {
    assert t == t[..k] + t[k..];
    TextBitsAppend(table, t[..k], t[k..]);
    PrefixOfSum(TextBits(table, t[..k]), TextBits(table, t[k..]));
  }

  lemma ZeroBits(width: nat)
    ensures BitsOf(0, width) == Zeros(width)
  {
  }

  lemma ByteBitsOfByte(a: Byte, rest: seq<Byte>)
    ensures ByteBits([a] + rest) == BitsOf(a, 8) + ByteBits(rest)
  {
    assert ([a] + rest)[1..] == rest;
  }

  lemma FourSums<T>(w: seq<T>, x: seq<T>, y: seq<T>, z: seq<T>)
    ensures w + (x + (y + z)) == w + x + y + z
  {
  }

  lemma ThreeFirst<T>(a: T, b: T, c: T, rest: seq<T>)
    ensures [a] + ([b] + ([c] + rest)) == [a, b, c] + rest
  {
  }

  lemma ByteBitsOfThree(a: Byte, b: Byte, c: Byte, rest: seq<Byte>)
    ensures ByteBits([a, b, c] + rest) == BitsOf(a, 8) + BitsOf(b, 8) + BitsOf(c, 8) + ByteBits(rest)
  {
    ByteBitsOfByte(c, rest);
    ByteBitsOfByte(b, [c] + rest);
    ByteBitsOfByte(a, [b] + ([c] + rest));
    ThreeFirst(a, b, c, rest);
    FourSums(BitsOf(a, 8), BitsOf(b, 8), BitsOf(c, 8), ByteBits(rest));
  }

  /** How many zero bits fill the last character. */
  function Fill(n: nat): nat {
    if n % 3 == 0 then 0 else if n % 3 == 1 then 4 else 2
  }

  lemma LastByteBits(table: string, a: Byte)
    requires Lists(table)
    ensures TextBits(table, Group(a, 0, 0)[..2]) == ByteBits([a]) + Zeros(4)
  {
    ZeroBits(8);
    GroupBits(table, a, 0, 0);
    TextBitsPrefix(table, Group(a, 0, 0), 2);
    ByteBitsOfByte(a, []);
    assert [a] + [] == [a];
    CutZeros(BitsOf(a, 8), 16, 12);
  }

  lemma LastBytesBits(table: string, a: Byte, b: Byte)
    requires Lists(table)
    ensures TextBits(table, Group(a, b, 0)[..3]) == ByteBits([a, b]) + Zeros(2)
  {
    ZeroBits(8);
    GroupBits(table, a, b, 0);
    TextBitsPrefix(table, Group(a, b, 0), 3);
    ByteBitsOfByte(b, []);
    ByteBitsOfByte(a, [b]);
    assert [b] + [] == [b] && [a] + [b] == [a, b];
    CutZeros(BitsOf(a, 8) + BitsOf(b, 8), 8, 18);
  }

  lemma CutZeros(bits: Bits, n: nat, k: nat)
    requires |bits| <= k <= |bits| + n
    ensures (bits + Zeros(n))[..k] == bits + Zeros(k - |bits|)
  {
  }

  lemma Combined(x: Bits, group: Bits, y: Bits, rest: Bits, zeros: Bits, all: Bits)
    requires x == group + y && y == rest + zeros && all == group + rest
    ensures x == all + zeros
  {
  }

  lemma SameFill(n: nat)
    ensures Fill(n + 3) == Fill(n)
  {
  }

  lemma UnpaddedStep(table: string, data: seq<Byte>)
    requires Lists(table) && |data| >= 3
    requires TextBits(table, Unpadded(data[3..])) == ByteBits(data[3..]) + Zeros(Fill(|data[3..]|))
    ensures TextBits(table, Unpadded(data)) == ByteBits(data) + Zeros(Fill(|data|))
  {
    var rest, group := data[3..], Group(data[0], data[1], data[2]);
    GroupBits(table, data[0], data[1], data[2]);
    TextBitsAppend(table, group, Unpadded(rest));
    ThreeAndRest(data);
    ByteBitsOfThree(data[0], data[1], data[2], rest);
    SameFill(|rest|);
    Combined(TextBits(table, Unpadded(data)), TextBits(table, group), TextBits(table, Unpadded(rest)), ByteBits(rest),
             Zeros(Fill(|rest|)), ByteBits(data));
  }

  lemma ShortLists<T>(s: seq<T>)
    ensures |s| == 1 ==> s == [s[0]]
    ensures |s| == 2 ==> s == [s[0], s[1]]
  {
  }

  lemma {:induction false} UnpaddedBits(table: string, data: seq<Byte>)
    requires Lists(table)
    ensures TextBits(table, Unpadded(data)) == ByteBits(data) + Zeros(Fill(|data|))
  {
    ShortLists(data);
    if |data| == 1 {
      LastByteBits(table, data[0]);
    } else if |data| == 2 {
      LastBytesBits(table, data[0], data[1]);
    } else if |data| >= 3 {
      UnpaddedBits(table, data[3..]);
      UnpaddedStep(table, data);
    }
  }

  lemma InTable(t: string)
    requires forall c :: c in t ==> IsDigit(c)
    ensures forall c :: c in t ==> c in ALPHABET
  {
    forall c | c in t ensures c in ALPHABET {
      DigitOfSextet(c);
      DigitIsInTable(SextetOf(c).value);
    }
  }

  /** Every character of an encoding is in the alphabet, and the places of the characters have, six bits each, the
      bits of the bytes and then as few zeros as fill the last character. */
  lemma EncodingKeepsBits(data: seq<Byte>)
    ensures forall c :: c in Encode(data) ==> c in ALPHABET
    ensures TextBits(ALPHABET, Encode(data)) == ByteBits(data) + Zeros(Fill(|data|))
    ensures |Encode(data)| == (8 * |data| + 5) / 6
  {
    EncodeIsUnpadded(data);
    InTable(Unpadded(data));
    forall n: Sextet ensures Place(ALPHABET, Digit(n)) == n { PlaceOfDigit(n); }
    UnpaddedBits(ALPHABET, data);
    assert 6 * |Encode(data)| == 8 * |data| + Fill(|data|);
  }

  // ---------------------------------------------------------------- decoding

  lemma TableIsDigits(t: string)
    requires forall c :: c in t ==> c in ALPHABET
    ensures forall c :: c in t ==> IsDigit(c)
  {
    forall c | c in t ensures IsDigit(c) {
      var n :| 0 <= n < |ALPHABET| && ALPHABET[n] == c;
      AlphabetParts(0);
      DigitIsInTable(n);
      DigitFacts(n);
    }
  }

  lemma DecodeLastTwo(table: string, t: string, out: seq<Byte>) returns (data: seq<Byte>)
    requires Lists(table) && |t| == 2 && IsDigit(t[0]) && IsDigit(t[1])
    ensures DecodeFrom(t + "==", 0, 0, 0, out) == Bytes(out + data)
    ensures |data| == 1 && ByteBits(data) == TextBits(table, t)[..8]
  {
    var a, b, c := DigitsFormGroup(t[0], t[1], 'A', 'A');
    data := [a];
    assert t == Group(a, b, c)[..2] == Group(a, b, 0)[..2];
    DecodeTwo(a, b, "==", out);
    assert "=="[1..] == "=";
    GroupBits(table, a, b, c);
    TextBitsPrefix(table, Group(a, b, c), 2);
    ByteBitsOfByte(a, []);
    assert [a] + [] == [a];
    FirstOfThree(BitsOf(a, 8), BitsOf(b, 8), BitsOf(c, 8), 12);
  }

  lemma FirstOfThree(a: Bits, b: Bits, c: Bits, k: nat)
    requires |a| <= k <= |a + b + c|
    ensures (a + b + c)[..k][..|a|] == a
    ensures |a + b| <= k ==> (a + b + c)[..k][..|a + b|] == a + b
  {
  }

  lemma DecodeLastThree(table: string, t: string, out: seq<Byte>) returns (data: seq<Byte>)
    requires Lists(table) && |t| == 3 && IsDigit(t[0]) && IsDigit(t[1]) && IsDigit(t[2])
    ensures DecodeFrom(t + "=", 0, 0, 0, out) == Bytes(out + data)
    ensures |data| == 2 && ByteBits(data) == TextBits(table, t)[..16]
  {
    var a, b, c := DigitsFormGroup(t[0], t[1], t[2], 'A');
    data := [a, b];
    assert t == Group(a, b, c)[..3];
    DecodeThree(a, b, c, "=", out);
    GroupBits(table, a, b, c);
    TextBitsPrefix(table, Group(a, b, c), 3);
    ByteBitsOfByte(b, []);
    ByteBitsOfByte(a, [b]);
    assert [b] + [] == [b] && [a] + [b] == [a, b];
    FirstOfThree(BitsOf(a, 8), BitsOf(b, 8), BitsOf(c, 8), 18);
  }

  lemma PrefixOfSums(a: Bits, b: Bits, k: nat)
    requires k <= |b|
    ensures (a + b)[..|a| + k] == a + b[..k]
  {
  }

  lemma FourAndRest<T>(s: seq<T>, pads: seq<T>)
    requires |s| >= 4
    ensures s == s[..4] + s[4..] && s + pads == s[..4] + (s[4..] + pads)
    ensures s[..4] == [s[0], s[1], s[2], s[3]]
  {
  }

  lemma Paddings()
    ensures Padding(0) == "" && Padding(2) == "==" && Padding(3) == "="
  {
  }

  /** The text decodes to `out` and the bytes whose bits it starts with. */
  predicate DecodesTo(table: string, t: string, out: seq<Byte>, data: seq<Byte>) {
    && DecodeFrom(t + Padding(|t|), 0, 0, 0, out) == Bytes(out + data)
    && |data| == 6 * |t| / 8 && ByteBits(data) == TextBits(table, t)[..8 * |data|]
  }

  lemma DecodeShort(table: string, t: string, out: seq<Byte>) returns (data: seq<Byte>)
    requires Lists(table) && |t| < 4 && |t| != 1 && forall i :: 0 <= i < |t| ==> IsDigit(t[i])
    ensures DecodesTo(table, t, out, data)
  {
    Paddings();
    if t == "" {
      data := [];
      assert out + [] == out && t + Padding(0) == "";
    } else if |t| == 2 {
      data := DecodeLastTwo(table, t, out);
    } else {
      data := DecodeLastThree(table, t, out);
    }
  }

  lemma {:induction false} DecodeText(table: string, t: string, out: seq<Byte>) returns (data: seq<Byte>)
    requires Lists(table) && |t| % 4 != 1 && forall i :: 0 <= i < |t| ==> IsDigit(t[i])
    ensures DecodesTo(table, t, out, data)
    decreases |t|
  {
    if |t| < 4 {
      data := DecodeShort(table, t, out);
    } else {
      var a, b, c := FirstGroup(t);
      var rest := DecodeText(table, t[4..], out + [a, b, c]);
      data := [a, b, c] + rest;
      DecodeFour(table, t, a, b, c, rest, out);
    }
  }

  lemma FirstGroup(t: string) returns (a: Byte, b: Byte, c: Byte)
    requires |t| >= 4 && IsDigit(t[0]) && IsDigit(t[1]) && IsDigit(t[2]) && IsDigit(t[3])
    ensures t[..4] == Group(a, b, c)
  {
    a, b, c := DigitsFormGroup(t[0], t[1], t[2], t[3]);
    FourAndRest(t, "");
  }

  lemma DecodeFour(table: string, t: string, a: Byte, b: Byte, c: Byte, rest: seq<Byte>, out: seq<Byte>)
    requires Lists(table) && |t| >= 4 && t[..4] == Group(a, b, c)
    requires DecodesTo(table, t[4..], out + [a, b, c], rest)
    ensures DecodesTo(table, t, out, [a, b, c] + rest)
  {
    DecodeStep(t, a, b, c, rest, out);
    DecodedBits(table, t, a, b, c, rest);
  }

  lemma DecodeStep(t: string, a: Byte, b: Byte, c: Byte, rest: seq<Byte>, out: seq<Byte>)
    requires |t| >= 4 && t[..4] == Group(a, b, c)
    requires DecodeFrom(t[4..] + Padding(|t[4..]|), 0, 0, 0, out + [a, b, c]) == Bytes(out + [a, b, c] + rest)
    ensures DecodeFrom(t + Padding(|t|), 0, 0, 0, out) == Bytes(out + ([a, b, c] + rest))
  {
    FourAndRest(t, Padding(|t|));
    assert Padding(|t[4..]|) == Padding(|t|);
    DecodeGroup(a, b, c, t[4..] + Padding(|t|), out);
    Regrouped(out, [a, b, c], rest);
  }

  lemma DecodedBits(table: string, t: string, a: Byte, b: Byte, c: Byte, rest: seq<Byte>)
    requires Lists(table) && |t| >= 4 && t[..4] == Group(a, b, c)
    requires |rest| == 6 * |t[4..]| / 8 && ByteBits(rest) == TextBits(table, t[4..])[..8 * |rest|]
    ensures ByteBits([a, b, c] + rest) == TextBits(table, t)[..8 * (3 + |rest|)]
  {
    FourAndRest(t, "");
    GroupBits(table, a, b, c);
    TextBitsAppend(table, t[..4], t[4..]);
    ByteBitsOfThree(a, b, c, rest);
    PrefixOfSums(TextBits(table, t[..4]), TextBits(table, t[4..]), 8 * |rest|);
  }

  /** Decoding a text in the alphabet, of any length an encoding can have, gives the bytes whose bits are those of
      the places of its characters, the last incomplete byte dropped. */
  lemma DecodingKeepsBits(t: string)
    requires |t| % 4 != 1 && forall c :: c in t ==> c in ALPHABET
    ensures Decode(t).Bytes?
    ensures var data := Decode(t).data;
      |data| == 6 * |t| / 8 && ByteBits(data) == TextBits(ALPHABET, t)[..8 * |data|]
  {
    TableIsDigits(t);
    forall n: Sextet ensures Place(ALPHABET, Digit(n)) == n { PlaceOfDigit(n); }
    var data := DecodeText(ALPHABET, t, []);
    assert [] + data == data;
  }
}
