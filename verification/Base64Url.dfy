/** The ACME client's text encoding of bytes, and the JWS signing input built from it. */
module Base64Url {
  import opened Basics
  import opened PyText

  type Byte = x: int | 0 <= x < 256
  type Sextet = x: int | 0 <= x < 64

  // ---------------------------------------------------------------- the alphabet

  /** The URL-safe character of six bits. */
  function Digit(n: Sextet): char {
    if n < 26 then (65 + n) as char
    else if n < 52 then (97 + n - 26) as char
    else if n < 62 then (48 + n - 52) as char
    else if n == 62 then '-' else '_'
  }

  predicate IsDigit(c: char) {
    'A' <= c <= 'Z' || 'a' <= c <= 'z' || '0' <= c <= '9' || c == '-' || c == '_'
  }

  /** The six bits of a character; decoding also takes the standard alphabet's `+` and `/`. */
  function SextetOf(c: char): Option<Sextet> {
    if 'A' <= c <= 'Z' then Some(c as int - 65)
    else if 'a' <= c <= 'z' then Some(c as int - 97 + 26)
    else if '0' <= c <= '9' then Some(c as int - 48 + 52)
    else if c == '-' || c == '+' then Some(62)
    else if c == '_' || c == '/' then Some(63)
    else None
  }

  lemma DigitFacts(n: Sextet)
    ensures IsDigit(Digit(n)) && SextetOf(Digit(n)) == Some(n) && Digit(n) != '=' && Digit(n) != '.'
  {
  }

  lemma DigitOfSextet(c: char)
    requires IsDigit(c)
    ensures SextetOf(c).Some? && Digit(SextetOf(c).value) == c
  {
  }

  // ---------------------------------------------------------------- encoding

  function Group(a: Byte, b: Byte, c: Byte): (r: string)
    ensures |r| == 4 && forall c :: c in r ==> IsDigit(c)
  {
    [Digit(a / 4), Digit(a % 4 * 16 + b / 16), Digit(b % 16 * 4 + c / 64), Digit(c % 64)]
  }

  /** The padded encoding. */
  function EncodePadded(data: seq<Byte>): string {
    if data == [] then ""
    else if |data| == 1 then Group(data[0], 0, 0)[..2] + "=="
    else if |data| == 2 then Group(data[0], data[1], 0)[..3] + "="
    else Group(data[0], data[1], data[2]) + EncodePadded(data[3..])
  }

  function Encode(data: seq<Byte>): string {
    TrimRight(c => c == '=', EncodePadded(data))
  }

  /** The encoding without its padding, group by group. */
  function Unpadded(data: seq<Byte>): (r: string)
    ensures |r| % 4 != 1
    ensures r == "" <==> data == []
    ensures forall c :: c in r ==> IsDigit(c)
  {
    if data == [] then ""
    else if |data| == 1 then Group(data[0], 0, 0)[..2]
    else if |data| == 2 then Group(data[0], data[1], 0)[..3]
    else Group(data[0], data[1], data[2]) + Unpadded(data[3..])
  }

  function Padding(length: nat): (r: string)
    ensures |r| < 4 && (length + |r|) % 4 == 0
  {
    seq((0 - length) % 4, _ => '=')
  }

  lemma TrimPads(digits: string, pads: string)
    requires digits == "" || digits[|digits| - 1] != '='
    requires forall c :: c in pads ==> c == '='
    ensures TrimRight(c => c == '=', digits + pads) == digits
  {
    if pads == "" {
      assert digits + pads == digits;
    } else {
      var s, last := digits + pads, |pads| - 1;
      assert pads == pads[..last] + [pads[last]];
      assert s[|s| - 1] == pads[last] && pads[last] in pads;
      assert s[..|s| - 1] == digits + pads[..last];
      forall c | c in pads[..last] ensures c == '=' { assert c in pads; }
      TrimPads(digits, pads[..last]);
    }
  }

  lemma {:induction false} PaddedForm(data: seq<Byte>)
    ensures EncodePadded(data) == Unpadded(data) + Padding(|Unpadded(data)|)
  {
    if |data| >= 3 {
      PaddedForm(data[3..]);
      GroupThenPadding(Group(data[0], data[1], data[2]), Unpadded(data[3..]));
    }
  }

  lemma GroupThenPadding(g: string, rest: string)
    requires |g| == 4
    ensures g + (rest + Padding(|rest|)) == (g + rest) + Padding(|g + rest|)
  {
    assert |g + rest| == 4 + |rest|;
    assert Padding(|rest|) == Padding(4 + |rest|);
  }

  /** Stripping the padding leaves exactly the digits. */
  lemma EncodeIsUnpadded(data: seq<Byte>)
    ensures Encode(data) == Unpadded(data)
  {
    PaddedForm(data);
    var u := Unpadded(data);
    if u != "" {
      assert u[|u| - 1] in u;
    }
    TrimPads(u, Padding(|u|));
  }

  // ---------------------------------------------------------------- decoding

  datatype Decoded = Bytes(data: seq<Byte>) | TooFewCharacters | IncorrectPadding

  /** The standard library's lenient decoder: characters outside the alphabet are skipped, and enough padding
      ends the input. `quad` counts the digits of the current group and `left` holds its unused bits. */
  function DecodeFrom(s: string, quad: nat, left: nat, pads: nat, out: seq<Byte>): Decoded
    requires quad < 4 && left < 64 && (quad == 2 ==> left < 16) && (quad == 3 ==> left < 4)
    decreases |s|
  {
    if s == "" then
      if quad == 0 then Bytes(out) else if quad == 1 then TooFewCharacters else IncorrectPadding
    else if s[0] == '=' then
      if quad >= 2 && quad + pads + 1 >= 4 then Bytes(out)
      else DecodeFrom(s[1..], quad, left, if quad >= 2 then pads + 1 else pads, out)
    else
      match SextetOf(s[0])
      case None => DecodeFrom(s[1..], quad, left, pads, out)
      case Some(n) =>
        if quad == 0 then DecodeFrom(s[1..], 1, n, 0, out)
        else if quad == 1 then DecodeFrom(s[1..], 2, n % 16, 0, out + [left * 4 + n / 16])
        else if quad == 2 then DecodeFrom(s[1..], 3, n % 4, 0, out + [left * 16 + n / 4])
        else DecodeFrom(s[1..], 0, 0, 0, out + [left * 64 + n])
  }

  function Decode(text: string): Decoded {
    DecodeFrom(text + Padding(|text|), 0, 0, 0, [])
  }

  /** Decoding a digit, whatever follows. */
  lemma DecodeDigit(n: Sextet, rest: string, quad: nat, left: nat, out: seq<Byte>)
    requires quad < 4 && left < 64 && (quad == 2 ==> left < 16) && (quad == 3 ==> left < 4)
    ensures DecodeFrom([Digit(n)] + rest, quad, left, 0, out)
         == if quad == 0 then DecodeFrom(rest, 1, n, 0, out)
            else if quad == 1 then DecodeFrom(rest, 2, n % 16, 0, out + [left * 4 + n / 16])
            else if quad == 2 then DecodeFrom(rest, 3, n % 4, 0, out + [left * 16 + n / 4])
            else DecodeFrom(rest, 0, 0, 0, out + [left * 64 + n])
  {
    DigitFacts(n);
    assert ([Digit(n)] + rest)[1..] == rest;
  }

  lemma DecodeTwo(a: Byte, b: Byte, rest: string, out: seq<Byte>)
    ensures DecodeFrom(Group(a, b, 0)[..2] + rest, 0, 0, 0, out) == DecodeFrom(rest, 2, b / 16, 0, out + [a])
  {
    var g := Group(a, b, 0);
    assert g[..2] + rest == [g[0]] + ([g[1]] + rest);
    DecodeDigit(a / 4, [g[1]] + rest, 0, 0, out);
    DecodeDigit(a % 4 * 16 + b / 16, rest, 1, a / 4, out);
    assert a / 4 * 4 + (a % 4 * 16 + b / 16) / 16 == a;
    assert (a % 4 * 16 + b / 16) % 16 == b / 16;
  }

  lemma DecodeThree(a: Byte, b: Byte, c: Byte, rest: string, out: seq<Byte>)
    ensures DecodeFrom(Group(a, b, c)[..3] + rest, 0, 0, 0, out) == DecodeFrom(rest, 3, c / 64, 0, out + [a, b])
  {
    var g := Group(a, b, c);
    assert g[..2] == Group(a, b, 0)[..2];
    assert g[..3] + rest == g[..2] + ([g[2]] + rest);
    DecodeTwo(a, b, [g[2]] + rest, out);
    DecodeDigit(b % 16 * 4 + c / 64, rest, 2, b / 16, out + [a]);
    assert b / 16 * 16 + (b % 16 * 4 + c / 64) / 4 == b;
    assert (b % 16 * 4 + c / 64) % 4 == c / 64;
    assert out + [a] + [b] == out + [a, b];
  }

  lemma DecodeGroup(a: Byte, b: Byte, c: Byte, rest: string, out: seq<Byte>)
    ensures DecodeFrom(Group(a, b, c) + rest, 0, 0, 0, out) == DecodeFrom(rest, 0, 0, 0, out + [a, b, c])
  {
    var g := Group(a, b, c);
    assert g + rest == g[..3] + ([g[3]] + rest);
    DecodeThree(a, b, c, [g[3]] + rest, out);
    DecodeDigit(c % 64, rest, 3, c / 64, out + [a, b]);
    assert out + [a, b] + [c] == out + [a, b, c];
  }

  lemma DecodeLastByte(a: Byte, out: seq<Byte>)
    ensures DecodeFrom(Group(a, 0, 0)[..2] + "==", 0, 0, 0, out) == Bytes(out + [a])
  {
    DecodeTwo(a, 0, "==", out);
    assert "=="[1..] == "=";
  }

  lemma DecodeLastBytes(a: Byte, b: Byte, out: seq<Byte>)
    ensures DecodeFrom(Group(a, b, 0)[..3] + "=", 0, 0, 0, out) == Bytes(out + [a, b])
  {
    DecodeThree(a, b, 0, "=", out);
  }

  lemma {:induction false} DecodePadded(data: seq<Byte>, out: seq<Byte>)
    ensures DecodeFrom(EncodePadded(data), 0, 0, 0, out) == Bytes(out + data)
    decreases |data|
  {
    if data == [] {
      assert out + data == out;
    } else if |data| == 1 {
      DecodeLastByte(data[0], out);
      assert [data[0]] == data;
    } else if |data| == 2 {
      DecodeLastBytes(data[0], data[1], out);
      assert [data[0], data[1]] == data;
    } else {
      DecodeGroup(data[0], data[1], data[2], EncodePadded(data[3..]), out);
      DecodePadded(data[3..], out + data[..3]);
      assert out + [data[0], data[1], data[2]] == out + data[..3];
      assert out + data[..3] + data[3..] == out + data;
    }
  }

  /** Decoding inverts encoding for every byte sequence: the padding that decoding restores is the padding
      that encoding stripped. */
  lemma DecodeInvertsEncode(data: seq<Byte>)
    ensures Decode(Encode(data)) == Bytes(data)
  {
    EncodeIsUnpadded(data);
    PaddedForm(data);
    DecodePadded(data, []);
    assert [] + data == data;
  }

  lemma EncodeInjective(x: seq<Byte>, y: seq<Byte>)
    requires Encode(x) == Encode(y)
    ensures x == y
  {
    DecodeInvertsEncode(x);
    DecodeInvertsEncode(y);
  }

  // ---------------------------------------------------------------- which texts are encodings

  /** Digits in groups of four, the last group not a single digit and without stray bits. */
  predicate Canonical(t: string) {
    if |t| >= 4 then (forall i :: 0 <= i < 4 ==> IsDigit(t[i])) && Canonical(t[4..])
    else if |t| == 3 then
      IsDigit(t[0]) && IsDigit(t[1]) && IsDigit(t[2]) && SextetOf(t[2]).value % 4 == 0
    else if |t| == 2 then IsDigit(t[0]) && IsDigit(t[1]) && SextetOf(t[1]).value % 16 == 0
    else t == ""
  }

  lemma {:induction false} EncodingsAreCanonical(data: seq<Byte>)
    ensures Canonical(Unpadded(data))
  {
    var u := Unpadded(data);
    forall c | c in u ensures IsDigit(c) { }
    if |data| == 1 {
      DigitFacts(data[0] % 4 * 16);
      assert u[1] == Digit(data[0] % 4 * 16);
    } else if |data| == 2 {
      DigitFacts(data[1] % 16 * 4);
      assert u[2] == Digit(data[1] % 16 * 4);
    } else if |data| >= 3 {
      EncodingsAreCanonical(data[3..]);
      assert u[4..] == Unpadded(data[3..]);
    }
  }

  /** Four sextets are the bits of three bytes. */
  lemma SextetsFormBytes(p: Sextet, q: Sextet, r: Sextet, s: Sextet) returns (a: Byte, b: Byte, c: Byte)
    ensures a / 4 == p && a % 4 * 16 + b / 16 == q && b % 16 * 4 + c / 64 == r && c % 64 == s
    ensures s == 0 && r % 4 == 0 ==> c == 0
    ensures r == 0 && q % 16 == 0 ==> b == 0
  {
    a := p * 4 + q / 16;
    b := q % 16 * 16 + r / 4;
    c := r % 4 * 64 + s;
  }

  /** Any four digits are a group; zero bits at its end are zero bytes. */
  lemma DigitsFormGroup(c0: char, c1: char, c2: char, c3: char) returns (a: Byte, b: Byte, c: Byte)
    requires IsDigit(c0) && IsDigit(c1) && IsDigit(c2) && IsDigit(c3)
    ensures Group(a, b, c) == [c0, c1, c2, c3]
    ensures c3 == 'A' && SextetOf(c2).value % 4 == 0 ==> c == 0
    ensures c2 == 'A' && SextetOf(c1).value % 16 == 0 ==> b == 0
  {
    DigitOfSextet(c0);
    DigitOfSextet(c1);
    DigitOfSextet(c2);
    DigitOfSextet(c3);
    a, b, c := SextetsFormBytes(SextetOf(c0).value, SextetOf(c1).value, SextetOf(c2).value, SextetOf(c3).value);
  }

  lemma {:induction false} CanonicalIsEncoding(t: string) returns (data: seq<Byte>)
    requires Canonical(t)
    ensures Unpadded(data) == t
    decreases |t|
  {
    if |t| < 2 {
      data := [];
    } else if |t| == 2 {
      var a, b, c := DigitsFormGroup(t[0], t[1], 'A', 'A');
      data := [a];
    } else if |t| == 3 {
      var a, b, c := DigitsFormGroup(t[0], t[1], t[2], 'A');
      data := [a, b];
    } else {
      var a, b, c := DigitsFormGroup(t[0], t[1], t[2], t[3]);
      var rest := CanonicalIsEncoding(t[4..]);
      data := [a, b, c] + rest;
      assert data[3..] == rest;
      assert t == t[..4] + t[4..];
    }
  }

  /** A text is an encoding exactly when it is canonical; its length is then never one more than a multiple
      of four. */
  lemma EncodingIffCanonical(t: string)
    ensures (exists data :: Encode(data) == t) <==> Canonical(t)
    ensures Canonical(t) ==> |t| % 4 != 1
  {
    if data :| Encode(data) == t {
      EncodeIsUnpadded(data);
      EncodingsAreCanonical(data);
    }
    if Canonical(t) {
      var data := CanonicalIsEncoding(t);
      EncodeIsUnpadded(data);
      assert Encode(data) == t;
    }
  }

  // ---------------------------------------------------------------- the signing input

  /** The encoded payload; a POST-as-GET request has none. */
  function PayloadText(payload: Option<seq<Byte>>): string {
    match payload
    case None => ""
    case Some(json) => Encode(json)
  }

  function SigningInput(header: seq<Byte>, payload: Option<seq<Byte>>): string {
    Encode(header) + "." + PayloadText(payload)
  }

  lemma NoDotInEncoding(data: seq<Byte>)
    ensures '.' !in Encode(data)
  {
    EncodeIsUnpadded(data);
    assert !IsDigit('.');
  }

  lemma DotSplitsOnce(p: string, q: string, p': string, q': string)
    requires '.' !in p && '.' !in p' && p + "." + q == p' + "." + q'
    ensures p == p' && q == q'
  {
    var s := p + "." + q;
    assert s[|p|] == '.' && s[|p'|] == '.';
    assert forall i :: 0 <= i < |p| ==> s[i] == p[i] && p[i] in p;
    assert forall i :: 0 <= i < |p'| ==> s[i] == p'[i] && p'[i] in p';
    assert |p| == |p'|;
    assert p == s[..|p|] && p' == s[..|p|];
    assert q == s[|p| + 1..] && q' == s[|p| + 1..];
  }

  /** The signing input determines the protected header and the payload; since no JSON text is empty, it also
      tells a POST-as-GET from a request with any payload. */
  lemma SigningInputDeterminesParts(h: seq<Byte>, p: Option<seq<Byte>>, h': seq<Byte>, p': Option<seq<Byte>>)
    requires p != Some([]) && p' != Some([])
    ensures SigningInput(h, p) == SigningInput(h', p') <==> h == h' && p == p'
  {
    if SigningInput(h, p) == SigningInput(h', p') {
      NoDotInEncoding(h);
      NoDotInEncoding(h');
      DotSplitsOnce(Encode(h), PayloadText(p), Encode(h'), PayloadText(p'));
      EncodeInjective(h, h');
      if p.Some? { EncodeIsUnpadded(p.value); }
      if p'.Some? { EncodeIsUnpadded(p'.value); }
      if p.Some? && p'.Some? {
        EncodeInjective(p.value, p'.value);
      }
    }
  }

  /** The text is the header's, a dot, and the payload's; a POST-as-GET has nothing after the dot. */
  predicate ReadsAs(text: string, before: string, after: string, h: seq<Byte>, p: Option<seq<Byte>>) {
    && text == before + "." + after && '.' !in before && Decode(before) == Bytes(h)
    && if p.None? then after == "" else Decode(after) == Bytes(p.value)
  }

  /** Before its first dot the signing input decodes to the protected header, and after it to the payload. */
  lemma SigningInputReads(h: seq<Byte>, p: Option<seq<Byte>>)
    ensures exists before, after :: ReadsAs(SigningInput(h, p), before, after, h, p)
  {
    NoDotInEncoding(h);
    DecodeInvertsEncode(h);
    if p.Some? { DecodeInvertsEncode(p.value); }
    assert ReadsAs(SigningInput(h, p), Encode(h), PayloadText(p), h, p);
  }
}
