/** Integers as bytes: the members of a public JWK and the fixed-width form of an ECDSA signature. */
module KeyEncodings {
  import opened Basics
  import opened Base64Url

  function Pow256(w: nat): (r: nat)
    ensures r > 0
  {
    if w == 0 then 1 else 256 * Pow256(w - 1)
  }

  /** `int.from_bytes(b, "big")`. */
  function FromBytes(b: seq<Byte>): nat {
    if b == [] then 0 else FromBytes(b[..|b| - 1]) * 256 + b[|b| - 1]
  }

  /** `n.to_bytes(w, "big")`; none where Python raises OverflowError. */
  function ToBytes(n: nat, w: nat): (r: Option<seq<Byte>>)
    ensures r.Some? ==> |r.value| == w
  {
    if w == 0 then (if n == 0 then Some([]) else None)
    else
      match ToBytes(n / 256, w - 1)
      case None => None
      case Some(front) => Some(front + [n % 256])
  }

  function BitLength(n: nat): nat {
    if n == 0 then 0 else 1 + BitLength(n / 2)
  }

  /** The width the client gives an RSA member. */
  function ByteWidth(n: nat): nat {
    (BitLength(n) + 7) / 8
  }

  /** Bytes of a given width and the integers below 256^width are in bijection. */
  lemma {:induction false} FixedWidth(n: nat, w: nat)
    ensures ToBytes(n, w).Some? <==> n < Pow256(w)
    ensures ToBytes(n, w).Some? ==> FromBytes(ToBytes(n, w).value) == n
  {
    if w > 0 {
      FixedWidth(n / 256, w - 1);
      if ToBytes(n, w).Some? {
        var b := ToBytes(n, w).value;
        assert b[..|b| - 1] == ToBytes(n / 256, w - 1).value;
      }
    }
  }

  lemma {:induction false} BytesAreTheirIntegers(b: seq<Byte>)
    ensures FromBytes(b) < Pow256(|b|) && ToBytes(FromBytes(b), |b|) == Some(b)
  {
    if b != [] {
      var front, last := b[..|b| - 1], b[|b| - 1];
      BytesAreTheirIntegers(front);
      assert FromBytes(b) / 256 == FromBytes(front) && FromBytes(b) % 256 == last;
      assert front + [last] == b;
    }
  }

  lemma Halves(n: nat)
    requires n >= 256
    ensures BitLength(n) == 8 + BitLength(n / 256)
  {
    var h := n / 2;
    var q := h / 2;
    var e := q / 2;
    var s := e / 2;
    assert s == n / 16;
    HalvesOnce(n);
    HalvesOnce(s);
    assert s / 16 == n / 256;
  }

  lemma HalvesOnce(n: nat)
    requires n >= 16
    ensures BitLength(n) == 4 + BitLength(n / 16)
  {
    assert n / 2 / 2 / 2 / 2 == n / 16;
    assert BitLength(n) == 1 + BitLength(n / 2);
    assert BitLength(n / 2) == 1 + BitLength(n / 2 / 2);
    assert BitLength(n / 2 / 2) == 1 + BitLength(n / 2 / 2 / 2);
    assert BitLength(n / 2 / 2 / 2) == 1 + BitLength(n / 2 / 2 / 2 / 2);
  }

  /** A byte has between one and eight bits. */
  lemma OneByteWidth(n: nat)
    requires 0 < n < 256
    ensures ByteWidth(n) == 1
  {
    if n >= 16 {
      HalvesOnce(n);
      NibbleLength(n / 16);
    } else {
      NibbleLength(n);
    }
  }

  lemma NibbleLength(n: nat)
    requires 0 < n < 16
    ensures 1 <= BitLength(n) <= 4
  {
    assert BitLength(n / 2) == if n / 2 == 0 then 0 else 1 + BitLength(n / 2 / 2);
    assert BitLength(n / 2 / 2) == if n / 2 / 2 == 0 then 0 else 1 + BitLength(n / 2 / 2 / 2);
    assert BitLength(n / 2 / 2 / 2) == if n / 2 / 2 / 2 == 0 then 0 else 1 + BitLength(0);
  }

  lemma WidthStep(n: nat)
    requires n >= 256
    ensures ByteWidth(n) == 1 + ByteWidth(n / 256)
  {
    Halves(n);
  }

  /** The width is the least that fits: every positive integer is recovered from its bytes, the first of which
      is not zero. */
  lemma {:induction false} MinimalWidth(n: nat)
    requires n > 0
    ensures var r := ToBytes(n, ByteWidth(n));
      r.Some? && FromBytes(r.value) == n && |r.value| > 0 && r.value[0] != 0
    decreases n
  {
    if n < 256 {
      OneByteWidth(n);
      assert ToBytes(n, 1) == Some([] + [n % 256]);
    } else {
      WidthStep(n);
      MinimalWidth(n / 256);
    }
    FixedWidth(n, ByteWidth(n));
  }

  // ---------------------------------------------------------------- signatures and JWKs

  /** `r || s` with both halves of the curve's width. */
  function RawSignature(r: nat, s: nat, width: nat): Option<seq<Byte>> {
    match (ToBytes(r, width), ToBytes(s, width))
    case (Some(a), Some(b)) => Some(a + b)
    case _ => None
  }

  /** The signature exists exactly when both numbers fit, and its halves are those numbers. */
  lemma RawSignatureSplits(r: nat, s: nat, width: nat)
    ensures RawSignature(r, s, width).Some? <==> r < Pow256(width) && s < Pow256(width)
    ensures RawSignature(r, s, width).Some? ==>
      var raw := RawSignature(r, s, width).value;
      |raw| == 2 * width && FromBytes(raw[..width]) == r && FromBytes(raw[width..]) == s
  {
    FixedWidth(r, width);
    FixedWidth(s, width);
    if RawSignature(r, s, width).Some? {
      var a, b := ToBytes(r, width).value, ToBytes(s, width).value;
      assert (a + b)[..width] == a && (a + b)[width..] == b;
    }
  }

  /** A public key as the client reads it from a private key. */
  datatype PublicKey =
    | Rsa(e: nat, n: nat)
    | Ec(crv: string, width: nat, x: nat, y: nat)

  datatype Jwk =
    | RsaJwk(eText: string, nText: string)
    | EcJwk(crv: string, xText: string, yText: string)

  function Member(n: nat, width: nat): Option<string> {
    match ToBytes(n, width)
    case None => None
    case Some(b) => Some(Encode(b))
  }

  function JwkOf(key: PublicKey): Option<Jwk> {
    match key
    case Rsa(e, n) =>
      (match (Member(e, ByteWidth(e)), Member(n, ByteWidth(n)))
       case (Some(et), Some(nt)) => Some(RsaJwk(et, nt))
       case _ => None)
    case Ec(crv, width, x, y) =>
      match (Member(x, width), Member(y, width))
      case (Some(xt), Some(yt)) => Some(EcJwk(crv, xt, yt))
      case _ => None
  }

  /** The integer a JWK member stands for. */
  function Integer(text: string): Option<nat> {
    match Decode(text)
    case Bytes(b) => Some(FromBytes(b))
    case _ => None
  }

  lemma MemberRoundTrip(n: nat, width: nat)
    ensures Member(n, width).Some? <==> n < Pow256(width)
    ensures Member(n, width).Some? ==> Integer(Member(n, width).value) == Some(n)
  {
    FixedWidth(n, width);
    if ToBytes(n, width).Some? {
      DecodeInvertsEncode(ToBytes(n, width).value);
    }
  }

  lemma RsaWidthFits(n: nat)
    ensures n < Pow256(ByteWidth(n))
  {
    if n > 0 {
      MinimalWidth(n);
      FixedWidth(n, ByteWidth(n));
    }
  }

  /** Every RSA key, and every EC key whose coordinates fit the curve, has a JWK from which its integers are
      read back. */
  lemma JwkRoundTrip(key: PublicKey)
    ensures JwkOf(key).Some? <==> (key.Rsa? || (key.x < Pow256(key.width) && key.y < Pow256(key.width)))
    ensures JwkOf(key).Some? ==>
      match JwkOf(key).value
      case RsaJwk(et, nt) => key.Rsa? && Integer(et) == Some(key.e) && Integer(nt) == Some(key.n)
      case EcJwk(crv, xt, yt) =>
        key.Ec? && crv == key.crv && Integer(xt) == Some(key.x) && Integer(yt) == Some(key.y)
  {
    match key
    case Rsa(e, n) =>
      RsaWidthFits(e);
      RsaWidthFits(n);
      MemberRoundTrip(e, ByteWidth(e));
      MemberRoundTrip(n, ByteWidth(n));
    case Ec(_, width, x, y) =>
      MemberRoundTrip(x, width);
      MemberRoundTrip(y, width);
  }
}
