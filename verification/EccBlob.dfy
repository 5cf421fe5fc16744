/** BCRYPT_ECCKEY_BLOB with a P-256 public key, as parseECCPublicBlob reads it. */
module EccBlob {
  import opened Bytes

  const MAGIC: nat := 0x31534345  // "ECS1"
  const WIDTH: nat := 32

  datatype BlobError = TooShort | WrongMagic | WrongWidth | Truncated

  function Reversed(b: bytes): bytes
    requires |b| == 4
  {
    [b[3], b[2], b[1], b[0]]
  }

  /** A uint32 as the little-endian processor reads it. */
  function Little(b: bytes): nat
    requires |b| == 4
  {
    Value(Reversed(b))
  }

  function LittleBytes(n: nat): (b: bytes)
    requires n < TWO_TO_32
    ensures |b| == 4
  {
    Reversed(Fixed(n, 4))
  }

  function Parse(blob: bytes): Result<(nat, nat), BlobError> {
    if |blob| < 8 then Err(TooShort)
    else if Little(blob[..4]) != MAGIC then Err(WrongMagic)
    else if Little(blob[4..8]) != WIDTH then Err(WrongWidth)
    else if |blob| < 72 then Err(Truncated)
    else Ok((Value(blob[8..40]), Value(blob[40..72])))
  }

  /** The one blob of a point, with both coordinates at full width. */
  function Print(x: nat, y: nat): (blob: bytes)
    ensures |blob| == 72
  {
    LittleBytes(MAGIC) + LittleBytes(WIDTH) + Fixed(x, 32) + Fixed(y, 32)
  }

  lemma LittleExact(b: bytes, n: nat)
    requires |b| == 4 && n < TWO_TO_32
    ensures Little(b) == n <==> b == LittleBytes(n)
  {
    hide Fixed, Value;
    Pow256Of4();
    ValueOfFixed(n, 4);
    FixedOfValue(Reversed(b));
    assert Reversed(Reversed(b)) == b && Reversed(Reversed(Fixed(n, 4))) == Fixed(n, 4);
  }

  lemma PrintSlices(x: nat, y: nat)
    ensures var p := Print(x, y);
            && p[..4] == LittleBytes(MAGIC) && p[4..8] == LittleBytes(WIDTH)
            && p[8..40] == Fixed(x, 32) && p[40..72] == Fixed(y, 32)
  {
    hide LittleBytes;
  }

  lemma HeaderBytes()
    ensures LittleBytes(MAGIC) == [0x45, 0x43, 0x53, 0x31] && LittleBytes(WIDTH) == [0x20, 0, 0, 0]
  {
    FourDigits(MAGIC);
    FourDigits(WIDTH);
  }

  /** In literal bytes: "ECS1", the width 32 in little-endian order, then the coordinates. */
  lemma PrintLayout(x: nat, y: nat)
    ensures Print(x, y) == [0x45, 0x43, 0x53, 0x31, 0x20, 0, 0, 0] + Fixed(x, 32) + Fixed(y, 32)
  {
    HeaderBytes();
    hide LittleBytes, Fixed;
    assert Print(x, y) == LittleBytes(MAGIC) + LittleBytes(WIDTH) + Fixed(x, 32) + Fixed(y, 32);
  }

  lemma ParsedIsPrinted(blob: bytes, x: nat, y: nat)
    requires Parse(blob) == Ok((x, y))
    ensures x < Pow256(32) && y < Pow256(32) && Print(x, y) <= blob
  {
    hide Little, LittleBytes, Fixed, Value, Pow256;
    LittleExact(blob[..4], MAGIC);
    LittleExact(blob[4..8], WIDTH);
    ValueBound(blob[8..40]);
    ValueBound(blob[40..72]);
    FixedOfValue(blob[8..40]);
    FixedOfValue(blob[40..72]);
    assert blob[..72] == blob[..4] + blob[4..8] + blob[8..40] + blob[40..72];
  }

  lemma PrintedIsParsed(blob: bytes, x: nat, y: nat)
    requires x < Pow256(32) && y < Pow256(32) && Print(x, y) <= blob
    ensures Parse(blob) == Ok((x, y))
  {
    hide Little, LittleBytes, Fixed, Value, Pow256;
    PrintSlices(x, y);
    var p := Print(x, y);
    assert blob[..72] == p;
    assert blob[..4] == p[..4] && blob[4..8] == p[4..8];
    assert blob[8..40] == p[8..40] && blob[40..72] == p[40..72];
    LittleExact(blob[..4], MAGIC);
    LittleExact(blob[4..8], WIDTH);
    ValueOfFixed(x, 32);
    ValueOfFixed(y, 32);
  }

  /** Parsing succeeds with (x, y) exactly when the first 72 bytes are the blob of that point. */
  lemma ParseExact(blob: bytes, x: nat, y: nat)
    ensures Parse(blob) == Ok((x, y)) <==> x < Pow256(32) && y < Pow256(32) && Print(x, y) <= blob
  {
    if Parse(blob) == Ok((x, y)) { ParsedIsPrinted(blob, x, y); }
    if x < Pow256(32) && y < Pow256(32) && Print(x, y) <= blob { PrintedIsParsed(blob, x, y); }
  }

  /** Printing and parsing are mutually inverse; what follows the 72 bytes is ignored. */
  lemma PrintParse(x: nat, y: nat, tail: bytes)
    requires x < Pow256(32) && y < Pow256(32)
    ensures Parse(Print(x, y) + tail) == Ok((x, y))
  {
    ParseExact(Print(x, y) + tail, x, y);
  }

  /** Which error an input gets, by its bytes alone. */
  lemma ParseErrors(blob: bytes)
    ensures Parse(blob) == Err(TooShort) <==> |blob| < 8
    ensures Parse(blob) == Err(WrongMagic) <==> |blob| >= 8 && blob[..4] != [0x45, 0x43, 0x53, 0x31]
    ensures Parse(blob) == Err(WrongWidth)
            <==> |blob| >= 8 && blob[..4] == [0x45, 0x43, 0x53, 0x31] && blob[4..8] != [0x20, 0, 0, 0]
    ensures Parse(blob) == Err(Truncated)
            <==> 8 <= |blob| < 72 && blob[..4] == [0x45, 0x43, 0x53, 0x31] && blob[4..8] == [0x20, 0, 0, 0]
  {
    if |blob| >= 8 {
      HeaderBytes();
      LittleExact(blob[..4], MAGIC);
      LittleExact(blob[4..8], WIDTH);
    }
  }
}
