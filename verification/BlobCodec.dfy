/** The framed key blob: what writeBlob lays out and what readBlob and readChunk accept. */
module BlobCodec {
  import opened Bytes

  const MAGIC: bytes := [0x4B, 0x50, 0x54, 0x4D]  // "KPTM"
  const VERSION: byte := 1

  /** A key's marshaled public and private areas. */
  datatype Key = Key(pub: bytes, priv: bytes)

  datatype FrameError = BadMagic | BadVersion | BadPublicChunk | BadPrivateChunk

  predicate Fits(k: Key) {
    |k.pub| < TWO_TO_32 && |k.priv| < TWO_TO_32
  }

  /** The four bytes of uint32(n): the conversion drops everything above 32 bits. */
  function Length32(n: nat): (b: bytes)
    ensures |b| == 4
  {
    Fixed(n % TWO_TO_32, 4)
  }

  function Framed(chunk: bytes): bytes {
    Length32(|chunk|) + chunk
  }

  function Encode(k: Key): bytes {
    MAGIC + [VERSION] + Framed(k.pub) + Framed(k.priv)
  }

  /** The chunk that starts at `pos`, when the input still holds all of it. */
  function ChunkAt(data: bytes, pos: nat): Option<bytes>
    requires pos <= |data|
  {
    if |data| - pos < 4 then None else
    var n := Value(data[pos..pos + 4]);
    if n > |data| - pos - 4 then None else Some(data[pos + 4..pos + 4 + n])
  }

  function Decode(data: bytes): Result<Key, FrameError> {
    if |data| < 4 || data[..4] != MAGIC then Err(BadMagic)
    else if |data| < 5 || data[4] != VERSION then Err(BadVersion)
    else match ChunkAt(data, 5)
      case None => Err(BadPublicChunk)
      case Some(pub) =>
        match ChunkAt(data, 9 + |pub|)
        case None => Err(BadPrivateChunk)
        case Some(priv) => Ok(Key(pub, priv))
  }

  /** The bytes of chunk buffers a decoding allocates, successful or not. */
  function ChunkBytes(data: bytes): nat {
    match Decode(data)
    case Ok(k) => |k.pub| + |k.priv|
    case Err(BadPrivateChunk) => |ChunkAt(data, 5).value|
    case Err(_) => 0
  }

  // ----- one chunk

  lemma LengthOfPrefix(b: bytes)
    requires |b| == 4
    ensures Value(b) < TWO_TO_32
    ensures Length32(Value(b)) == b
  {
    Pow256Of4();
    ValueBound(b);
    FixedOfValue(b);
  }

  lemma PrefixOfLength(n: nat)
    ensures Value(Length32(n)) == n % TWO_TO_32
  {
    Pow256Of4();
    ValueOfFixed(n % TWO_TO_32, 4);
  }

  /** A chunk is found at `pos` exactly when its framing stands there. */
  lemma ChunkAtExact(data: bytes, pos: nat, chunk: bytes)
    requires pos <= |data|
    ensures ChunkAt(data, pos) == Some(chunk) <==> |chunk| < TWO_TO_32 && Framed(chunk) <= data[pos..]
  {
    var rest := data[pos..];
    if ChunkAt(data, pos) == Some(chunk) {
      LengthOfPrefix(data[pos..pos + 4]);
      assert rest[..4 + |chunk|] == data[pos..pos + 4] + data[pos + 4..pos + 4 + |chunk|];
      assert Framed(chunk) == rest[..4 + |chunk|];
    }
    if |chunk| < TWO_TO_32 && Framed(chunk) <= rest {
      PrefixOfLength(|chunk|);
      assert data[pos..pos + 4] == Framed(chunk)[..4] == Length32(|chunk|);
      assert data[pos + 4..pos + 4 + |chunk|] == rest[..4 + |chunk|][4..] == Framed(chunk)[4..] == chunk;
    }
  }

  // ----- whole blobs

  lemma EncodeShape(k: Key)
    ensures |Encode(k)| == 13 + |k.pub| + |k.priv|
    ensures Encode(k)[..4] == MAGIC && Encode(k)[4] == VERSION
  {
    var head := MAGIC + [VERSION];
    assert head[..4] == MAGIC;
    assert Encode(k)[..4] == head[..4];
  }

  /** The decoder accepts exactly the inputs that begin with an encoded key, and returns that key. */
  lemma DecodeExact(data: bytes, k: Key)
    ensures Decode(data) == Ok(k) <==> Fits(k) && Encode(k) <= data
  {
    EncodeShape(k);
    if Decode(data) == Ok(k) {
      ChunkAtExact(data, 5, k.pub);
      ChunkAtExact(data, 9 + |k.pub|, k.priv);
      PrefixJoin(data, MAGIC + [VERSION], Framed(k.pub), Framed(k.priv));
    }
    if Fits(k) && Encode(k) <= data {
      var e := Encode(k);
      assert data[..4] == e[..4] && data[4] == e[4];
      PrefixSplit(data, MAGIC + [VERSION], Framed(k.pub), Framed(k.priv));
      ChunkAtExact(data, 5, k.pub);
      ChunkAtExact(data, 9 + |k.pub|, k.priv);
    }
  }

  lemma PrefixJoin(data: bytes, a: bytes, b: bytes, c: bytes)
    requires a <= data && b <= data[|a|..] && |a| + |b| <= |data| && c <= data[|a| + |b|..]
    ensures a + b + c <= data
  {
    assert data == a + data[|a|..];
    assert data[|a|..] == b + data[|a| + |b|..];
    assert data[|a| + |b|..] == c + data[|a| + |b| + |c|..];
  }

  lemma PrefixSplit(data: bytes, a: bytes, b: bytes, c: bytes)
    requires a + b + c <= data
    ensures a <= data && b <= data[|a|..] && |a| + |b| <= |data| && c <= data[|a| + |b|..]
  {
    var e := a + b + c;
    assert a == e[..|a|];
    assert b == e[|a|..|a| + |b|] == data[|a|..|a| + |b|];
    assert c == e[|a| + |b|..|e|] == data[|a| + |b|..|e|];
  }

  /** Reading back what was framed returns the two areas unless a length overflowed 32 bits. */
  lemma RoundTrip(k: Key)
    ensures Decode(Encode(k)) == Ok(k) <==> Fits(k)
  {
    DecodeExact(Encode(k), k);
  }

  /** Such an overflow: an area of exactly 2^32 bytes is framed with the length 0. */
  lemma LongAreaMisread()
    ensures exists k: Key :: |k.pub| == TWO_TO_32 && Length32(|k.pub|) == Length32(0) && Decode(Encode(k)) != Ok(k)
  {
    var k := Key(seq(TWO_TO_32, _ => 0), []);
    RoundTrip(k);
  }

  lemma TrailingBytesIgnored(k: Key, tail: bytes)
    requires Fits(k)
    ensures Decode(Encode(k) + tail) == Ok(k)
  {
    DecodeExact(Encode(k) + tail, k);
  }

  /** No encoded key is a proper prefix of another, and the two are equal only for equal keys. */
  lemma PrefixFree(a: Key, b: Key)
    requires Fits(a) && Fits(b) && Encode(a) <= Encode(b)
    ensures a == b
  {
    DecodeExact(Encode(b), a);
    DecodeExact(Encode(b), b);
  }

  /** A blob cut short anywhere is rejected. */
  lemma TruncationRejected(k: Key, len: nat)
    requires Fits(k) && len < |Encode(k)|
    ensures Decode(Encode(k)[..len]).Err?
  {
    hide Encode, Decode, Fits;
    var cut := Encode(k)[..len];
    if Decode(cut).Ok? {
      var other := Decode(cut).value;
      DecodeExact(cut, other);
      assert Encode(other) <= Encode(k) by { assert Encode(k) == cut + Encode(k)[len..]; }
      PrefixFree(other, k);
      assert false;
    }
  }

  /** Chunk buffers never outgrow the input: all of it but 13 bytes on success, but 9 on any failure. */
  lemma AllocationBound(data: bytes)
    ensures Decode(data).Ok? ==> ChunkBytes(data) + 13 <= |data|
    ensures ChunkBytes(data) > 0 ==> ChunkBytes(data) + 9 <= |data|
  {
  }

  /** A well-formed beginning and a complete first chunk, and then less than the length of a second. */
  predicate EndsInSecondLength(data: bytes)
    requires |data| >= 13
  {
    && data[..4] == MAGIC && data[4] == VERSION
    && ChunkAt(data, 5).Some? && |data| < 13 + |ChunkAt(data, 5).value|
  }

  /** Leaving 13 bytes unallocated is the rule exactly unless a first chunk is followed by less than a length. */
  lemma AllocationBoundIff(data: bytes)
    requires |data| >= 13
    ensures ChunkBytes(data) + 13 <= |data| <==> !EndsInSecondLength(data)
  {
  }

  /** Nine is the best bound for failures: a complete first chunk with nothing after it allocates all of it. */
  lemma AllocationBoundTight(pub: bytes)
    requires |pub| < TWO_TO_32
    ensures var data := MAGIC + [VERSION] + Framed(pub);
            Decode(data) == Err(BadPrivateChunk) && ChunkBytes(data) == |data| - 9
  {
    var data := MAGIC + [VERSION] + Framed(pub);
    assert data[..4] == MAGIC && data[4] == VERSION;
    assert data[5..] == Framed(pub);
    ChunkAtExact(data, 5, pub);
  }

  // ----- the format in literal bytes

  /** A length as the four bytes of its base-256 digits. */
  function FourBytes(n: nat): bytes
    requires n < TWO_TO_32
  {
    [n / 0x100_0000, n / 0x1_0000 % 256, n / 0x100 % 256, n % 256]
  }

  /** The blob of a key as it stands on the disk. */
  function Layout(k: Key): bytes
    requires Fits(k)
  {
    [0x4B, 0x50, 0x54, 0x4D, 1] + FourBytes(|k.pub|) + k.pub + FourBytes(|k.priv|) + k.priv
  }

  lemma Regroup(a: bytes, b: bytes, c: bytes, d: bytes, e: bytes)
    ensures a + (b + c) + (d + e) == a + b + c + d + e
  {
  }

  lemma LengthIsFourBytes(n: nat)
    requires n < TWO_TO_32
    ensures Length32(n) == FourBytes(n)
  {
    FourDigits(n);
  }

  lemma HeadBytes()
    ensures MAGIC + [VERSION] == [0x4B, 0x50, 0x54, 0x4D, 1]
  {
  }

  lemma EncodeIsLayout(k: Key)
    requires Fits(k)
    ensures Encode(k) == Layout(k)
  {
    hide Length32, FourBytes;
    HeadBytes();
    LengthIsFourBytes(|k.pub|);
    LengthIsFourBytes(|k.priv|);
    Regroup(MAGIC + [VERSION], FourBytes(|k.pub|), k.pub, FourBytes(|k.priv|), k.priv);
  }

  /** Which input a decoding answers with which result, by its bytes alone. */
  ghost predicate DecidedByBytes(data: bytes, r: Result<Key, FrameError>) {
    && (r == Err(BadMagic) <==> !([0x4B, 0x50, 0x54, 0x4D] <= data))
    && (r == Err(BadVersion) <==> [0x4B, 0x50, 0x54, 0x4D] <= data && !([0x4B, 0x50, 0x54, 0x4D, 1] <= data))
    && forall k :: r == Ok(k) <==> Fits(k) && Layout(k) <= data
  }

  lemma DecodeByBytes(data: bytes)
    ensures DecidedByBytes(data, Decode(data))
  {
    assert [0x4B, 0x50, 0x54, 0x4D] <= data <==> |data| >= 4 && data[..4] == MAGIC;
    assert [0x4B, 0x50, 0x54, 0x4D, 1] == MAGIC + [1];
    if |data| >= 5 && data[..4] == MAGIC && data[4] == 1 {
      assert data[..5] == MAGIC + [1];
    }
    forall k ensures Decode(data) == Ok(k) <==> Fits(k) && Layout(k) <= data {
      DecodeExact(data, k);
      if Fits(k) { EncodeIsLayout(k); }
    }
  }

  // ----- the code that appends and the code that consumes

  /** bytes.Buffer. */
  class Buffer {
    var contents: bytes

    constructor ()
      ensures contents == []
    {
      contents := [];
    }

    method Write(b: bytes)
      modifies this
      ensures contents == old(contents) + b
    {
      contents := contents + b;
    }

    method WriteUint32(n: nat)
      modifies this
      ensures contents == old(contents) + Length32(n)
    {
      var u := n % TWO_TO_32;
      Write([u / 0x100_0000, u / 0x1_0000 % 256, u / 0x100 % 256, u % 256]);
      FourDigits(u);
    }
  }

  /** The framing part of writeBlob. */
  method FrameBlob(k: Key) returns (out: bytes)
    ensures out == Encode(k) && (Fits(k) ==> out == Layout(k))
    ensures Decode(out) == Ok(k) <==> Fits(k)
  {
    var buf := new Buffer();
    buf.Write(MAGIC);
    buf.Write([VERSION]);
    buf.WriteUint32(|k.pub|);
    buf.Write(k.pub);
    buf.WriteUint32(|k.priv|);
    buf.Write(k.priv);
    out := buf.contents;
    assert out == MAGIC + [VERSION] + (Length32(|k.pub|) + k.pub) + (Length32(|k.priv|) + k.priv);
    RoundTrip(k);
    if Fits(k) {
      EncodeIsLayout(k);
    }
  }

  /** bytes.Reader: a cursor over a fixed input. `reserved` counts the chunk buffers made so far. */
  class Reader {
    const data: bytes
    var pos: nat
    var reserved: nat

    ghost predicate Valid()
      reads this
    {
      pos <= |data|
    }

    constructor (data: bytes)
      ensures Valid() && this.data == data && pos == 0 && reserved == 0
    {
      this.data := data;
      pos, reserved := 0, 0;
    }

    function Len(): (n: nat)
      requires Valid()
      reads this
    {
      |data| - pos
    }

    /** io.ReadFull: all `n` bytes, or none of them and the input is used up. */
    method ReadFull(n: nat) returns (r: Option<bytes>)
      requires Valid()
      modifies this`pos
      ensures Valid()
      ensures old(Len()) >= n ==> r == Some(data[old(pos)..old(pos) + n]) && pos == old(pos) + n
      ensures old(Len()) < n ==> r == None && pos == |data|
    {
      if Len() < n {
        pos := |data|;
        return None;
      }
      r := Some(data[pos..pos + n]);
      pos := pos + n;
    }

    /** readChunk: the length is held against the bytes left before a buffer is made for it. */
    method ReadChunk() returns (r: Option<bytes>)
      requires Valid()
      modifies this
      ensures Valid()
      ensures r == ChunkAt(data, old(pos))
      ensures r.Some? ==> pos == old(pos) + 4 + |r.value|
      ensures reserved == old(reserved) + if r.Some? then |r.value| else 0
    {
      var prefix := ReadFull(4);
      if prefix == None {
        return None;
      }
      var n := Value(prefix.value);
      if n > Len() {
        return None;
      }
      reserved := reserved + n;
      r := ReadFull(n);
    }

    /** The framing part of readBlob, from a fresh reader. */
    method ReadBlob() returns (r: Result<Key, FrameError>)
      requires Valid() && pos == 0 && reserved == 0
      modifies this
      ensures Valid()
      ensures r == Decode(data) && DecidedByBytes(data, r)
      ensures reserved == ChunkBytes(data)
    {
      hide DecidedByBytes;
      DecodeByBytes(data);
      var magic := ReadFull(4);
      if magic == None || magic.value != MAGIC {
        return Err(BadMagic);
      }
      var version := ReadFull(1);
      if version == None || version.value[0] != VERSION {
        return Err(BadVersion);
      }
      var pub := ReadChunk();
      if pub == None {
        return Err(BadPublicChunk);
      }
      var priv := ReadChunk();
      if priv == None {
        return Err(BadPrivateChunk);
      }
      return Ok(Key(pub.value, priv.value));
    }
  }
}
