/**
 Signatures: the DER form of the pair (r, s), the Ecdsa-Sig-Value of section 2.2.3 of RFC 3279
 under sections 8.3 and 10.1 of ITU-T X.690, and the two ways the backends arrive at it.
 */
module Der {
  import opened Bytes

  const INTEGER: byte := 0x02
  const SEQUENCE: byte := 0x30

  /** The content of a non-negative INTEGER: minimal, with a zero byte where the sign bit would be set. */
  function IntegerContent(n: nat): bytes {
    var m := Minimal(n);
    if m == [] then [0] else if m[0] >= 128 then [0] + m else m
  }

  /** Definite length, short form below 128 and minimal long form above. */
  function LengthOctets(n: nat): bytes
    requires |Minimal(n)| < 127
  {
    if n < 128 then [n] else [128 + |Minimal(n)|] + Minimal(n)
  }

  /** Contents whose length a definite form can still express. */
  predicate Expressible(content: bytes) {
    |Minimal(|content|)| < 127
  }

  function Element(tag: byte, content: bytes): bytes
    requires Expressible(content)
  {
    [tag] + LengthOctets(|content|) + content
  }

  predicate SignatureExpressible(r: nat, s: nat) {
    && Expressible(IntegerContent(r)) && Expressible(IntegerContent(s))
    && Expressible(Element(INTEGER, IntegerContent(r)) + Element(INTEGER, IntegerContent(s)))
  }

  /** asn1.Marshal of struct{R, S *big.Int}. */
  function EncodeSignature(r: nat, s: nat): bytes
    requires SignatureExpressible(r, s)
  {
    Element(SEQUENCE, Element(INTEGER, IntegerContent(r)) + Element(INTEGER, IntegerContent(s)))
  }

  // ----- the strict decoder

  /** The length at the front of `b`, with the number of octets it takes. */
  function DecodeLength(b: bytes): Option<(nat, nat)> {
    if b == [] then None
    else if b[0] < 128 then Some((b[0], 1))
    else
      var k := b[0] - 128;
      if k == 0 || k >= 127 || |b| < 1 + k || b[1] == 0 then None
      else
        var n := Value(b[1..1 + k]);
        if n < 128 then None else Some((n, 1 + k))
  }

  /** The content of the element with this tag at the front of `b`, and what follows it. */
  function DecodeElement(tag: byte, b: bytes): Option<(bytes, bytes)> {
    if b == [] || b[0] != tag then None
    else match DecodeLength(b[1..])
      case None => None
      case Some((n, used)) =>
        if |b| < 1 + used + n then None else Some((b[1 + used..1 + used + n], b[1 + used + n..]))
  }

  /** A non-negative INTEGER without superfluous leading octets. */
  function DecodeInteger(c: bytes): Option<nat> {
    if c == [] || c[0] >= 128 || (|c| > 1 && c[0] == 0 && c[1] < 128) then None else Some(Value(c))
  }

  function DecodeSignature(b: bytes): Option<(nat, nat)> {
    match DecodeElement(SEQUENCE, b)
    case None => None
    case Some((body, tail)) =>
      if tail != [] then None
      else match DecodeElement(INTEGER, body)
        case None => None
        case Some((rc, rest)) =>
          match DecodeElement(INTEGER, rest)
          case None => None
          case Some((sc, end)) =>
            if end != [] then None
            else match (DecodeInteger(rc), DecodeInteger(sc))
              case (Some(r), Some(s)) => Some((r, s))
              case _ => None
  }

  // ----- integers

  lemma IntegerExact(c: bytes, n: nat)
    ensures DecodeInteger(c) == Some(n) <==> c == IntegerContent(n)
  {
    ValueOfMinimal(n);
    var m := Minimal(n);
    if c == IntegerContent(n) {
      if m == [] {
        assert Value([0]) == 0 by { ValueOfLeadingZero([]); }
      } else if m[0] >= 128 {
        ValueOfLeadingZero(m);
      }
    }
    if DecodeInteger(c) == Some(n) {
      if c[0] == 0 {
        assert c == [0] + c[1..];
        ValueOfLeadingZero(c[1..]);
        MinimalOfValue(c[1..]);
      } else {
        MinimalOfValue(c);
      }
    }
  }

  // ----- elements

  lemma LengthRoundTrip(n: nat, tail: bytes)
    requires |Minimal(n)| < 127
    ensures DecodeLength(LengthOctets(n) + tail) == Some((n, |LengthOctets(n)|))
  {
    if n >= 128 {
      ValueOfMinimal(n);
      var b := LengthOctets(n) + tail;
      assert b[1..1 + |Minimal(n)|] == Minimal(n);
      assert b[1] == Minimal(n)[0];
    }
  }

  lemma LengthCanonical(b: bytes, n: nat, used: nat)
    requires DecodeLength(b) == Some((n, used))
    ensures |Minimal(n)| < 127 && used <= |b| && b[..used] == LengthOctets(n)
  {
    if b[0] < 128 {
      MinimalLength(n, 1) by { assert Pow256(1) == 256; }
      assert b[..1] == [n];
    } else {
      MinimalOfValue(b[1..used]);
      assert b[..used] == [b[0]] + b[1..used];
    }
  }

  lemma DecodedElement(tag: byte, b: bytes, content: bytes, tail: bytes)
    requires DecodeElement(tag, b) == Some((content, tail))
    ensures Expressible(content) && b == Element(tag, content) + tail
  {
    hide DecodeLength, LengthOctets, Minimal;
    var (n, used) := DecodeLength(b[1..]).value;
    LengthCanonical(b[1..], n, used);
    assert b == [b[0]] + b[1..][..used] + b[1 + used..1 + used + n] + b[1 + used + n..];
  }

  lemma EncodedElement(tag: byte, content: bytes, tail: bytes)
    requires Expressible(content)
    ensures DecodeElement(tag, Element(tag, content) + tail) == Some((content, tail))
  {
    hide DecodeLength, LengthOctets;
    var b := Element(tag, content) + tail;
    var front := LengthOctets(|content|);
    assert b[1..] == front + (content + tail);
    LengthRoundTrip(|content|, content + tail);
    assert b[1 + |front|..] == content + tail;
  }

  /** An element is read off the front exactly when its encoding stands there. */
  lemma ElementExact(tag: byte, b: bytes, content: bytes, tail: bytes)
    ensures DecodeElement(tag, b) == Some((content, tail))
            <==> Expressible(content) && b == Element(tag, content) + tail
  {
    hide Element, DecodeElement;
    if DecodeElement(tag, b) == Some((content, tail)) { DecodedElement(tag, b, content, tail); }
    if Expressible(content) && b == Element(tag, content) + tail { EncodedElement(tag, content, tail); }
  }

  // ----- signatures

  /** The decoder accepts exactly the one encoding of each pair: the form is canonical. */
  lemma SignatureExact(b: bytes, r: nat, s: nat)
    ensures DecodeSignature(b) == Some((r, s)) <==> SignatureExpressible(r, s) && b == EncodeSignature(r, s)
  {
    var rc, sc := IntegerContent(r), IntegerContent(s);
    IntegerExact(rc, r);
    IntegerExact(sc, s);
    if DecodeSignature(b) == Some((r, s)) {
      var (body, tail) := DecodeElement(SEQUENCE, b).value;
      var (rc', rest) := DecodeElement(INTEGER, body).value;
      var (sc', end) := DecodeElement(INTEGER, rest).value;
      IntegerExact(rc', r);
      IntegerExact(sc', s);
      ElementExact(SEQUENCE, b, body, tail);
      ElementExact(INTEGER, body, rc, rest);
      ElementExact(INTEGER, rest, sc, end);
      assert rest == Element(INTEGER, sc);
      assert b == Element(SEQUENCE, body);
    }
    if SignatureExpressible(r, s) && b == EncodeSignature(r, s) {
      var body := Element(INTEGER, rc) + Element(INTEGER, sc);
      assert b == Element(SEQUENCE, body) + [];
      ElementExact(SEQUENCE, b, body, []);
      ElementExact(INTEGER, body, rc, Element(INTEGER, sc));
      assert Element(INTEGER, sc) == Element(INTEGER, sc) + [];
      ElementExact(INTEGER, Element(INTEGER, sc), sc, []);
    }
  }

  lemma SignatureRoundTrip(r: nat, s: nat)
    requires SignatureExpressible(r, s)
    ensures DecodeSignature(EncodeSignature(r, s)) == Some((r, s))
  {
    SignatureExact(EncodeSignature(r, s), r, s);
  }

  lemma SignatureInjective(r: nat, s: nat, r': nat, s': nat)
    requires SignatureExpressible(r, s) && SignatureExpressible(r', s')
    requires EncodeSignature(r, s) == EncodeSignature(r', s')
    ensures r == r' && s == s'
  {
    SignatureRoundTrip(r, s);
    SignatureRoundTrip(r', s');
  }

  lemma ShortContent(n: nat)
    requires n < Pow256(32)
    ensures 1 <= |IntegerContent(n)| <= 33
    ensures Expressible(IntegerContent(n))
    ensures |Element(INTEGER, IntegerContent(n))| == 2 + |IntegerContent(n)|
  {
    MinimalLength(n, 32);
    MinimalLength(|IntegerContent(n)|, 1) by { assert Pow256(1) == 256; }
  }

  /** Coordinates of at most 32 bytes always give a short-form sequence of 8 to 72 bytes. */
  lemma SignatureLength(r: nat, s: nat)
    requires r < Pow256(32) && s < Pow256(32)
    ensures SignatureExpressible(r, s)
    ensures |EncodeSignature(r, s)| == 6 + |IntegerContent(r)| + |IntegerContent(s)|
    ensures 8 <= |EncodeSignature(r, s)| <= 72
  {
    ShortContent(r);
    ShortContent(s);
    var body := Element(INTEGER, IntegerContent(r)) + Element(INTEGER, IntegerContent(s));
    MinimalLength(|body|, 1) by { assert Pow256(1) == 256; }
  }

  /** The content of an INTEGER: the value in as few bytes as leave the sign bit clear. */
  predicate IsContent(c: bytes, n: nat) {
    c != [] && c[0] < 128 && Value(c) == n && (|c| > 1 && c[0] == 0 ==> c[1] >= 128)
  }

  lemma ContentIff(c: bytes, n: nat)
    ensures IsContent(c, n) <==> c == IntegerContent(n)
  {
    IntegerExact(c, n);
  }

  /** In literal bytes: a SEQUENCE (0x30) of two INTEGERs (0x02), all lengths in one byte. */
  lemma SignatureLayout(r: nat, s: nat) returns (rc: bytes, sc: bytes)
    requires r < Pow256(32) && s < Pow256(32)
    ensures IsContent(rc, r) && IsContent(sc, s) && |rc| <= 33 && |sc| <= 33
    ensures SignatureExpressible(r, s)
    ensures EncodeSignature(r, s) == [0x30, 4 + |rc| + |sc|, 0x02, |rc|] + rc + [0x02, |sc|] + sc
  {
    rc, sc := IntegerContent(r), IntegerContent(s);
    ShortContent(r);
    ShortContent(s);
    SignatureLength(r, s);
    ContentIff(rc, r);
    ContentIff(sc, s);
    hide Element, IntegerContent, Value, Expressible;
    ShortSequence(rc, sc);
  }

  lemma ShortSequence(rc: bytes, sc: bytes)
    requires |rc| <= 33 && |sc| <= 33 && Expressible(rc) && Expressible(sc)
    requires Expressible(Element(INTEGER, rc) + Element(INTEGER, sc))
    ensures Element(SEQUENCE, Element(INTEGER, rc) + Element(INTEGER, sc))
            == [0x30, 4 + |rc| + |sc|, 0x02, |rc|] + rc + [0x02, |sc|] + sc
  {
    hide Element, Expressible;
    ShortElement(INTEGER, rc);
    ShortElement(INTEGER, sc);
    var body := [0x02, |rc|] + rc + ([0x02, |sc|] + sc);
    assert Element(INTEGER, rc) + Element(INTEGER, sc) == body;
    ShortElement(SEQUENCE, body);
  }

  lemma ShortElement(tag: byte, content: bytes)
    requires |content| < 128 && Expressible(content)
    ensures Element(tag, content) == [tag, |content|] + content
  {
  }

  // ----- the two conversions

  /** Linux: coordinates of whatever width the TPM returned. */
  function LinuxDer(rBuffer: bytes, sBuffer: bytes): (der: bytes)
    requires SignatureExpressible(Value(rBuffer), Value(sBuffer))
    ensures DecodeSignature(der) == Some((Value(rBuffer), Value(sBuffer)))
  {
    SignatureRoundTrip(Value(rBuffer), Value(sBuffer));
    EncodeSignature(Value(rBuffer), Value(sBuffer))
  }

  /** Windows: exactly 64 raw bytes, split in the middle. */
  function WindowsDer(raw: bytes): (r: Option<bytes>)
    ensures r.Some? <==> |raw| == 64
    ensures r.Some? ==>
              && DecodeSignature(r.value) == Some((Value(raw[..32]), Value(raw[32..])))
              && 8 <= |r.value| <= 72
  {
    if |raw| != 64 then None
    else
      ValueBound(raw[..32]);
      ValueBound(raw[32..]);
      SignatureLength(Value(raw[..32]), Value(raw[32..]));
      SignatureRoundTrip(Value(raw[..32]), Value(raw[32..]));
      Some(EncodeSignature(Value(raw[..32]), Value(raw[32..])))
  }

  function Zeros(n: nat): (b: bytes)
    ensures |b| == n
  {
    if n == 0 then [] else [0] + Zeros(n - 1)
  }

  lemma {:induction false} ValueOfZeros(n: nat, b: bytes)
    ensures Value(Zeros(n) + b) == Value(b)
  {
    if n == 0 {
      assert Zeros(0) + b == b;
    } else {
      assert Zeros(n) + b == [0] + (Zeros(n - 1) + b);
      ValueOfLeadingZero(Zeros(n - 1) + b);
      ValueOfZeros(n - 1, b);
    }
  }

  /** For one signature both backends emit the same bytes, whatever zeros lead the Linux buffers. */
  lemma BackendsAgree(r: nat, s: nat, i: nat, j: nat)
    requires r < Pow256(32) && s < Pow256(32)
    ensures var rBuffer, sBuffer := Zeros(i) + Minimal(r), Zeros(j) + Minimal(s);
            && Value(rBuffer) == r && Value(sBuffer) == s && SignatureExpressible(r, s)
            && WindowsDer(Fixed(r, 32) + Fixed(s, 32)) == Some(LinuxDer(rBuffer, sBuffer))
            && DecodeSignature(LinuxDer(rBuffer, sBuffer)) == Some((r, s))
  {
    hide Minimal, Fixed, Zeros, Value, EncodeSignature, DecodeSignature;
    ValueOfZeros(i, Minimal(r));
    ValueOfZeros(j, Minimal(s));
    ValueOfMinimal(r);
    ValueOfMinimal(s);
    SignatureLength(r, s);
    SignatureRoundTrip(r, s);
    var raw := Fixed(r, 32) + Fixed(s, 32);
    assert raw[..32] == Fixed(r, 32) && raw[32..] == Fixed(s, 32);
    ValueOfFixed(r, 32);
    ValueOfFixed(s, 32);
  }
}
